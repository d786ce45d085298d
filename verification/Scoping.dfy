/**
  Scoping is closed end to end: in the lowered plan of every accepted request each column
  belongs to a scanned table, aliases are distinct, and each ON clause mentions its own and
  earlier aliases only.
*/
module Scoping {
  import opened Errors
  import opened Values
  import opened Expressions
  import opened Catalog
  import opened Ordering
  import opened SqlTree
  import opened Plans
  import opened Planner
  import opened JoinPlanning
  import opened Rules
  import opened RuleEngine
  import opened Emissions
  import opened QueryMeaning
  import opened Lowering
  import opened FanOut
  import opened Binder

  // -- the scans of a lowered join tree -----------------------------------------------------------

  lemma {:induction false} AliasIsPosition(tables: seq<TableId>)
    requires NoDuplicates(tables)
    ensures forall i :: 0 <= i < |tables| ==> AliasOf(AssignAliases(tables), tables[i]) == i
  {
    if tables != [] {
      var n := |tables| - 1;
      assert forall i :: 0 <= i < n ==> tables[..n][i] == tables[i];
      AliasIsPosition(tables[..n]);
      forall i | 0 <= i < n
        ensures AliasOf(AssignAliases(tables), tables[i]) == i
      {
        assert tables[..n][i] == tables[i] && tables[i] != tables[n];
        KnownTables(tables[..n]);
        assert tables[i] in AssignAliases(tables[..n]);
      }
    }
  }

  lemma {:induction false} KnownTables(tables: seq<TableId>)
    ensures forall t :: t in AssignAliases(tables) <==> t in tables
  {
    if tables != [] {
      var n := |tables| - 1;
      KnownTables(tables[..n]);
      assert tables == tables[..n] + [tables[n]];
    }
  }

  lemma TargetIsNew(s: Search, plan: JoinPlan, i: nat, j: nat)
    requires plan.base == s.base && Tree(s, plan.joins) && i < j <= |plan.joins|
    ensures PlannedTables(plan)[i] != PlannedTables(plan)[j]
  {
    hide Usable;
    var js := plan.joins;
    assert Step(s, Visited(s.base, js[..j - 1]), js[j - 1]);
    StepIsNew(s, Visited(s.base, js[..j - 1]), js[j - 1]);
    if i > 0 {
      assert js[..j - 1][i - 1] == js[i - 1];
    }
  }

  lemma VisitedArePlanned(plan: JoinPlan, t: TableId)
    ensures t in plan.Tables() <==> t in PlannedTables(plan)
  {
    var ts, js := PlannedTables(plan), plan.joins;
    if t in plan.Tables() && t != plan.base {
      var j :| j in js && j.to == t;
      var i :| 0 <= i < |js| && js[i] == j;
      assert ts[i + 1] == t;
    }
    if t in ts {
      var i :| 0 <= i < |ts| && ts[i] == t;
      assert i > 0 ==> js[i - 1] in js;
    }
  }

  /** A tree of joins visits each table once. */
  lemma PlannedAreDistinct(s: Search, plan: JoinPlan)
    requires plan.base == s.base && Tree(s, plan.joins)
    ensures NoDuplicates(PlannedTables(plan))
    ensures forall t :: t in plan.Tables() <==> t in PlannedTables(plan)
  {
    hide Tree, Step, PlannedTables;
    assert |PlannedTables(plan)| == |plan.joins| + 1;
    forall i, j | 0 <= i < j < |PlannedTables(plan)|
      ensures PlannedTables(plan)[i] != PlannedTables(plan)[j]
    {
      TargetIsNew(s, plan, i, j);
    }
    forall t
      ensures t in plan.Tables() <==> t in PlannedTables(plan)
    {
      VisitedArePlanned(plan, t);
    }
  }

  lemma StepIsNew(s: Search, visited: set<TableId>, j: PlannedJoin)
    requires Step(s, visited, j)
    ensures j.to !in visited && j.from in visited && j.relationship in s.bundle.relationships
    ensures {j.from, j.to} == {j.relationship.leftTable, j.relationship.rightTable}
  {
  }

  lemma LoweredJoin(bundle: Bundle, scope: Scope, aliases: map<TableId, Alias>, j: PlannedJoin, join: Join)
    requires BundleWellFormed(bundle) && LowerJoin(bundle, scope, aliases, j) == Ok(join)
    ensures Lowered(j, join) && j.to in bundle.tables
    ensures join.right == Scan(j.to, bundle.tables[j.to].physical, AliasOf(aliases, j.to))
  {
    hide LowerJoinPredicates;
  }

  /** The scan of the i-th planned table. */
  predicate ScanOf(bundle: Bundle, tables: seq<TableId>, scan: Scan, i: nat)
    requires i < |tables|
  {
    tables[i] in bundle.tables && scan == Scan(tables[i], bundle.tables[tables[i]].physical, i)
  }

  predicate ScansOf(bundle: Bundle, tables: seq<TableId>, scans: seq<Scan>) {
    |scans| == |tables| && forall i :: 0 <= i < |tables| ==> ScanOf(bundle, tables, scans[i], i)
  }

  lemma LoweredEach(bundle: Bundle, scope: Scope, plan: BoundPlan, joins: JoinPlan, lowered: LogicalPlan, i: nat)
    requires BundleWellFormed(bundle) && LowerPlan(bundle, scope, plan, joins) == Ok(lowered)
    requires NoDuplicates(PlannedTables(joins)) && i < |joins.joins|
    ensures |lowered.joins| == |joins.joins| && Lowered(joins.joins[i], lowered.joins[i])
    ensures ScanOf(bundle, PlannedTables(joins), lowered.joins[i].right, i + 1)
  {
    hide Lowered, LowerJoin, NoDuplicates, AssignAliases, BundleWellFormed, LowerPlan;
    var ts := PlannedTables(joins);
    var aliases := AssignAliases(ts);
    AliasIsPosition(ts);
    LoweredJoinList(bundle, scope, plan, joins, lowered);
    LoweredJoin(bundle, scope, aliases, joins.joins[i], lowered.joins[i]);
    assert ts[i + 1] == joins.joins[i].to && AliasOf(aliases, ts[i + 1]) == i + 1;
  }

  lemma LoweredJoinList(bundle: Bundle, scope: Scope, plan: BoundPlan, joins: JoinPlan, lowered: LogicalPlan)
    requires LowerPlan(bundle, scope, plan, joins) == Ok(lowered)
    ensures LowerJoins(bundle, scope, AssignAliases(PlannedTables(joins)), joins.joins) == Ok(lowered.joins)
  {
    hide LowerJoins, AssignAliases, WhereOf, GroupsOf, MeasuresOf, TenantConditions, NeedsTenant;
  }

  /** What lowering yields for each join. */
  lemma LoweredJoins(bundle: Bundle, scope: Scope, plan: BoundPlan, joins: JoinPlan, lowered: LogicalPlan)
    requires BundleWellFormed(bundle) && LowerPlan(bundle, scope, plan, joins) == Ok(lowered)
    requires NoDuplicates(PlannedTables(joins))
    ensures AllLowered(joins.joins, lowered.joins)
    ensures ScansOf(bundle, PlannedTables(joins), Scans(lowered)) && DistinctScans(Scans(lowered))
  {
    hide Lowered, LowerJoins, NoDuplicates, AssignAliases, BundleWellFormed, LowerPlan, DistinctScans, ScanOf;
    var ts, scans := PlannedTables(joins), Scans(lowered);
    AliasIsPosition(ts);
    LoweredJoinList(bundle, scope, plan, joins, lowered);
    BaseScan(bundle, scope, plan, joins, lowered);
    forall i | 0 <= i < |joins.joins|
      ensures Lowered(joins.joins[i], lowered.joins[i]) && ScanOf(bundle, ts, scans[i + 1], i + 1)
    {
      LoweredEach(bundle, scope, plan, joins, lowered, i);
      assert scans[i + 1] == lowered.joins[i].right;
    }
    forall i | 0 <= i < |ts|
      ensures ScanOf(bundle, ts, scans[i], i)
    {
      if i > 0 {
        assert ScanOf(bundle, ts, scans[(i - 1) + 1], (i - 1) + 1);
      }
    }
    ScansAreDistinct(bundle, ts, scans);
  }

  lemma BaseScan(bundle: Bundle, scope: Scope, plan: BoundPlan, joins: JoinPlan, lowered: LogicalPlan)
    requires BundleWellFormed(bundle) && LowerPlan(bundle, scope, plan, joins) == Ok(lowered)
    requires AliasOf(AssignAliases(PlannedTables(joins)), joins.base) == 0
    ensures ScanOf(bundle, PlannedTables(joins), lowered.base, 0)
  {
    hide LowerJoins, AssignAliases, WhereOf, GroupsOf, MeasuresOf, TenantConditions, NeedsTenant;
  }

  lemma ScansAreDistinct(bundle: Bundle, ts: seq<TableId>, scans: seq<Scan>)
    requires NoDuplicates(ts) && ScansOf(bundle, ts, scans)
    ensures DistinctScans(scans)
  {
    forall i, j | 0 <= i < j < |scans|
      ensures scans[i].table != scans[j].table && scans[i].alias != scans[j].alias
    {
      assert ScanOf(bundle, ts, scans[i], i) && ScanOf(bundle, ts, scans[j], j);
    }
  }

  lemma RelationshipIn(bundle: Bundle, rel: Relationship)
    requires BundleWellFormed(bundle) && rel in bundle.relationships
    ensures RelationshipWellFormed(rel)
  {
  }

  /** An approved join has a predicate and reads its two tables, whichever way it is travelled. */
  lemma JoinReadsItsStep(bundle: Bundle, s: Search, visited: set<TableId>, j: PlannedJoin, join: Join)
    requires BundleWellFormed(bundle) && s.bundle == bundle && Step(s, visited, j) && Lowered(j, join)
    ensures join.predicates != [] && ColumnsInAll(join.predicates) == JoinKeys(j.relationship.predicates)
    ensures forall c :: c in ColumnsInAll(join.predicates) ==> c.table in {j.from, j.to}
  {
    hide Step, BundleWellFormed, RelationshipWellFormed;
    StepIsNew(s, visited, j);
    RelationshipIn(bundle, j.relationship);
    HasPredicates(j.relationship);
    JoinReadsItsTables(j.relationship);
    LoweredColumns(j.relationship.predicates);
  }

  /** Each ON clause reads the joined table and tables scanned before it, and has a predicate. */
  lemma OnReadsEarlierScans(bundle: Bundle, joins: JoinPlan, lowered: LogicalPlan, s: Search, i: nat)
    requires BundleWellFormed(bundle) && s.bundle == bundle && joins.base == s.base && Tree(s, joins.joins)
    requires AllLowered(joins.joins, lowered.joins) && ScansOf(bundle, PlannedTables(joins), Scans(lowered)) && i < |lowered.joins|
    ensures lowered.joins[i].predicates != []
    ensures ColumnsInAll(lowered.joins[i].predicates) == JoinKeys(joins.joins[i].relationship.predicates)
    ensures forall c :: c in ColumnsInAll(lowered.joins[i].predicates) ==>
              exists k :: 0 <= k <= i + 1 && Scans(lowered)[k].table == c.table
  {
    hide BundleWellFormed, Step, Lowered, ColumnsInAll, JoinKeys;
    var js, j := joins.joins, joins.joins[i];
    assert Step(s, Visited(s.base, js[..i]), j);
    StepSources(s, Visited(s.base, js[..i]), j);
    JoinReadsItsStep(bundle, s, Visited(s.base, js[..i]), j, lowered.joins[i]);
    assert ScanOf(bundle, PlannedTables(joins), Scans(lowered)[i + 1], i + 1);
    var k := FirstVisit(s, joins, i);
    assert ScanOf(bundle, PlannedTables(joins), Scans(lowered)[k], k);
  }

  lemma StepSources(s: Search, visited: set<TableId>, j: PlannedJoin)
    requires Step(s, visited, j)
    ensures j.from in visited
  {
  }

  lemma HasPredicates(rel: Relationship)
    requires RelationshipWellFormed(rel)
    ensures rel.predicates != []
  {
  }

  lemma FirstVisit(s: Search, joins: JoinPlan, i: nat) returns (k: nat)
    requires joins.base == s.base && i < |joins.joins| && joins.joins[i].from in Visited(s.base, joins.joins[..i])
    ensures k <= i && PlannedTables(joins)[k] == joins.joins[i].from
  {
    var js, from := joins.joins, joins.joins[i].from;
    if from == joins.base {
      k := 0;
    } else {
      var j :| j in js[..i] && j.to == from;
      var n :| 0 <= n < i && js[n] == j;
      k := n + 1;
    }
  }

  // -- the columns of a lowered plan --------------------------------------------------------------------

  function GroupColumns(gs: seq<(string, Option<ColumnId>)>): set<ColumnId> {
    set g | g in gs && g.1.Some? :: g.1.value
  }

  function BucketColumns(b: Option<TimeBucket>): set<ColumnId> {
    if b.None? then {} else {b.value.column}
  }

  function MeasuredColumns(ms: seq<(string, Measure)>): set<ColumnId> {
    if ms == [] then {} else MeasureColumns(ms[0].1) + MeasuredColumns(ms[1..])
  }

  function OnColumns(joins: seq<Join>): set<ColumnId> {
    if joins == [] then {} else ColumnsInAll(joins[0].predicates) + OnColumns(joins[1..])
  }

  /** Every column of the projections, GROUP BY, ON, WHERE and HAVING. */
  function PlanColumns(plan: LogicalPlan): set<ColumnId> {
    BucketColumns(plan.timeBucket) + GroupColumns(plan.groupBy) + MeasuredColumns(plan.measures)
    + OnColumns(plan.joins) + ColumnsInAll(plan.where) + ColumnsInAll(plan.having)
  }

  lemma {:induction false} ColumnsConcat(a: seq<Predicate>, b: seq<Predicate>)
    ensures ColumnsInAll(a + b) == ColumnsInAll(a) + ColumnsInAll(b)
  {
    if a == [] {
      assert a + b == b;
    } else {
      ColumnsConcat(a[1..], b);
      assert (a + b)[1..] == a[1..] + b;
    }
  }

  lemma {:induction false} OnColumnsOf(joins: seq<Join>, c: ColumnId)
    requires c in OnColumns(joins)
    ensures exists i :: 0 <= i < |joins| && c in ColumnsInAll(joins[i].predicates)
  {
    if c !in ColumnsInAll(joins[0].predicates) {
      OnColumnsOf(joins[1..], c);
      var i :| 0 <= i < |joins[1..]| && c in ColumnsInAll(joins[1..][i].predicates);
      assert joins[i + 1] == joins[1..][i];
    }
  }

  /** The tenant conditions read the published tenant keys of the planned tables. */
  lemma {:induction false} TenantColumns(bundle: Bundle, tables: seq<TableId>)
    requires BundleWellFormed(bundle) && TenantConditions(bundle, tables).Ok?
    ensures forall c :: c in ColumnsInAll(TenantConditions(bundle, tables).value) ==> c.table in tables && c in bundle.columns
  {
    if tables != [] {
      TenantColumns(bundle, tables[1..]);
      if tables[0] in bundle.tables && TENANT_TAG in bundle.tables[tables[0]].tags {
        var key := bundle.tables[tables[0]].tenantKey.value;
        assert TenantKeyWellFormed(bundle, bundle.tables[tables[0]]);
        var rest := TenantConditions(bundle, tables[1..]).value;
        assert ([TenantCondition(key)] + rest)[1..] == rest;
        assert ColumnsIn(TenantCondition(key)) == {key};
      }
    }
  }

  lemma {:induction false} ObligedWithin(os: seq<Obligation>, placement: Placement)
    ensures ColumnsInAll(ObligedAt(os, placement)) <= ObligedColumns(os)
  {
    if os != [] {
      ObligedWithin(os[1..], placement);
      var d := os[0].demand;
      if d.condition.Some? && d.placement == placement {
        var p, rest := d.condition.value, ObligedAt(os[1..], placement);
        assert ([p] + rest)[1..] == rest;
      } else {
        assert [] + ObligedAt(os[1..], placement) == ObligedAt(os[1..], placement);
      }
    }
  }

  lemma {:induction false} ObligedFrom(os: seq<Obligation>, c: ColumnId)
    requires c in ObligedColumns(os)
    ensures exists o :: o in os && c in ConditionColumns(o.demand.condition)
  {
    if c in ConditionColumns(os[0].demand.condition) {
      assert os[0] in os;
    } else {
      ObligedFrom(os[1..], c);
      var o :| o in os[1..] && c in ConditionColumns(o.demand.condition);
      assert o in os;
    }
  }

  /** Conditions and join keys mention published columns. */
  predicate CatalogPublished(bundle: Bundle) {
    && (forall q :: q in bundle.rules && DemandOf(q).Some? ==> ConditionColumns(DemandOf(q).value.condition) <= bundle.columns.Keys)
    && (forall rel :: rel in bundle.relationships ==> JoinKeys(rel.predicates) <= bundle.columns.Keys)
  }

  /** The closure reaches the table of every column an obligation mentions. */
  lemma ObligationsReached(bundle: Bundle, scope: Scope, seed: Seed, required: seq<string>, closure: ClosureResult, c: ColumnId)
    requires ClosureFor(bundle, scope, seed, required, closure) && CatalogPublished(bundle)
    requires c in ObligedColumns(closure.obligations)
    ensures c.table in closure.reached.tables && c in bundle.columns
  {
    hide ActiveFrom, RefsApplied, Reauthorized;
    ObligedFrom(closure.obligations, c);
    var o :| o in closure.obligations && c in ConditionColumns(o.demand.condition);
    var q :| q in bundle.rules && DemandOf(q).Some? && ActiveFrom(bundle, seed, q, closure.reached)
             && o == Obligation(q.ref, DemandOf(q).value);
    assert Within(Needs(bundle, q), closure.reached);
    assert c.table in TablesOf(ConditionColumns(o.demand.condition));
  }

  lemma SeedReached(bundle: Bundle, scope: Scope, seed: Seed, required: seq<string>, closure: ClosureResult)
    requires ClosureFor(bundle, scope, seed, required, closure)
    ensures seed.tables <= closure.reached.tables
  {
  }

  lemma {:induction false} FiltersPublished(bundle: Bundle, scope: Scope, fs: seq<ProposedFilter>, ps: seq<Predicate>)
    requires |ps| == |fs| && forall i :: 0 <= i < |fs| ==> BindFilter(bundle, scope, fs[i]) == Ok(ps[i])
    ensures ColumnsInAll(ps) <= bundle.columns.Keys
  {
    if fs != [] {
      FiltersPublished(bundle, scope, fs[1..], ps[1..]);
      assert BindFilter(bundle, scope, fs[0]) == Ok(ps[0]);
      if ps[0].Membership? {
        NoColumnsInLiterals(fs[0].values);
      }
    }
  }

  lemma {:induction false} NoColumnsInLiterals(vs: seq<Value>)
    ensures MemberColumns(Literals(vs)) == {}
  {
    if vs != [] {
      NoColumnsInLiterals(vs[1..]);
      assert Literals(vs)[1..] == Literals(vs[1..]);
    }
  }

  /** The columns of the request itself belong to the seed and are published. */
  lemma SeedPublished(bundle: Bundle, scope: Scope, request: Request, r: BindResult)
    requires BoundFrom(bundle, scope, request, r)
    ensures var m := bundle.metrics[request.metricIds[0]];
            SeedColumns(m, r.plan.dimensions, r.plan.filters) <= bundle.columns.Keys
  {
    hide ClosureFor, JoinsFor, PlanFor, Authorized;
    var m := bundle.metrics[request.metricIds[0]];
    FiltersPublished(bundle, scope, request.filters, r.plan.filters);
    forall c | c in DimensionColumns(r.plan.dimensions)
      ensures c in bundle.columns
    {
      var d :| d in r.plan.dimensions && d.column == c;
      var i :| 0 <= i < |r.plan.dimensions| && r.plan.dimensions[i] == d;
      assert DimensionUsable(bundle, scope, m, request.dimensionIds[i]);
    }
  }

  /** The columns of the plan's output, apart from joins and conditions. */
  lemma OutputIsSeed(m: Metric, id: string, request: Request, closure: ClosureResult, plan: BoundPlan, lowered: LogicalPlan)
    requires request.metricIds == [id] && PlanFor(m, request, closure, plan)
    requires lowered.timeBucket == BucketOf(plan.time) && lowered.groupBy == GroupsOf(plan) && lowered.measures == MeasuresOf(plan.metrics)
    ensures BucketColumns(lowered.timeBucket) + GroupColumns(lowered.groupBy) + MeasuredColumns(lowered.measures)
         <= SeedColumns(m, plan.dimensions, plan.filters)
  {
    assert lowered.measures[1..] == [];
    assert MeasuredColumns(lowered.measures) == MeasureColumns(m.expression) + MeasuredColumns(lowered.measures[1..]);
    forall c | c in GroupColumns(lowered.groupBy)
      ensures c in DimensionColumns(plan.dimensions)
    {
      var g :| g in lowered.groupBy && g.1 == Some(c);
      assert g in DimensionGroups(plan.dimensions);
      var i :| 0 <= i < |plan.dimensions| && DimensionGroups(plan.dimensions)[i] == g;
      assert plan.dimensions[i] in plan.dimensions;
    }
  }

  lemma WhereColumns(m: Metric, id: string, request: Request, closure: ClosureResult, plan: BoundPlan, tenant: seq<Predicate>)
    requires request.metricIds == [id] && PlanFor(m, request, closure, plan)
    ensures ColumnsInAll(WhereOf(plan, tenant))
         <= ColumnsInAll(tenant) + SeedColumns(m, plan.dimensions, plan.filters) + ObligedColumns(closure.obligations)
    ensures ColumnsInAll(ObligedAt(plan.obligations, AfterAggregation)) <= ObligedColumns(closure.obligations)
  {
    var time, pops, obliged := TimeConditions(plan.time), Populations(plan.metrics), ObligedAt(plan.obligations, BeforeAggregation);
    ColumnsConcat(tenant + time + pops + obliged, plan.filters);
    ColumnsConcat(tenant + time + pops, obliged);
    ColumnsConcat(tenant + time, pops);
    ColumnsConcat(tenant, time);
    ObligedWithin(plan.obligations, BeforeAggregation);
    ObligedWithin(plan.obligations, AfterAggregation);
    TimeColumns(plan.time);
    PopulationsOfOne(plan.metrics[0]);
  }

  lemma TimeColumns(time: Option<BoundTime>)
    ensures ColumnsInAll(TimeConditions(time)) <= if time.None? then {} else {time.value.column}
  {
    if time.Some? {
      var cs := TimeConditions(time);
      assert cs[1..] == [cs[1]] && cs[1..][1..] == [];
      assert ColumnsInAll(cs) == ColumnsIn(cs[0]) + ColumnsInAll(cs[1..]);
      assert ColumnsInAll(cs[1..]) == ColumnsIn(cs[1]) + ColumnsInAll([]);
    }
  }

  lemma PopulationsOfOne(m: BoundMetric)
    ensures ColumnsInAll(Populations([m])) == ConditionColumns(m.population)
    ensures Populations([m]) == if m.population.Some? then [m.population.value] else []
  {
    assert [m][1..] == [] && Populations([]) == [];
    if m.population.Some? {
      assert Populations([m]) == [m.population.value];
      assert [m.population.value][1..] == [];
      assert ColumnsInAll([m.population.value]) == ColumnsIn(m.population.value) + ColumnsInAll([]);
    }
  }

  /** What lowering makes of the parts of the bound plan. */
  lemma LoweredParts(bundle: Bundle, scope: Scope, r: BindResult, plan: LogicalPlan)
    requires LowerPlan(bundle, scope, r.plan, r.joins) == Ok(plan)
    ensures exists tenant :: plan.where == WhereOf(r.plan, tenant)
    ensures plan.having == ObligedAt(r.plan.obligations, AfterAggregation)
    ensures NeedsTenant(r.plan.obligations) ==>
              && TenantConditions(bundle, PlannedTables(r.joins)).Ok?
              && plan.where == WhereOf(r.plan, TenantConditions(bundle, PlannedTables(r.joins)).value)
    ensures !NeedsTenant(r.plan.obligations) ==> plan.where == WhereOf(r.plan, [])
    ensures plan.groupBy == GroupsOf(r.plan) && plan.timeBucket == BucketOf(r.plan.time)
    ensures plan.measures == MeasuresOf(r.plan.metrics) && plan.outputGrain == AliasesOf(GroupsOf(r.plan)) && plan.orderBy == r.plan.orderBy
  {
    hide WhereOf, GroupsOf, MeasuresOf, BucketOf, TenantConditions, LowerJoins, AssignAliases, NeedsTenant;
    var tenant := if NeedsTenant(r.plan.obligations) then TenantConditions(bundle, PlannedTables(r.joins)).value else [];
    assert plan.where == WhereOf(r.plan, tenant);
  }

  // -- the theorem ------------------------------------------------------------------------------------------

  predicate LoweredFrom(bundle: Bundle, scope: Scope, r: BindResult, lowered: LogicalPlan) {
    BundleWellFormed(bundle) && CatalogPublished(bundle) && LowerPlan(bundle, scope, r.plan, r.joins) == Ok(lowered)
  }

  lemma JoinTree(bundle: Bundle, scope: Scope, request: Request, r: BindResult) returns (s: Search)
    requires BoundFrom(bundle, scope, request, r)
    ensures s.bundle == bundle && r.joins.base == s.base && Tree(s, r.joins.joins)
    ensures r.closure.reached.tables <= r.joins.Tables() && r.joins.IsAdditiveSafe()
  {
    var m := bundle.metrics[request.metricIds[0]];
    s := SearchFor(bundle, scope, m.baseTable, r.closure.reached.tables, true);
  }

  /** A table of the join plan is scanned. */
  lemma PlannedIsScanned(bundle: Bundle, joins: JoinPlan, lowered: LogicalPlan, t: TableId)
    requires ScansOf(bundle, PlannedTables(joins), Scans(lowered))
    ensures t in ScannedTables(lowered) <==> t in PlannedTables(joins)
  {
    if t in PlannedTables(joins) {
      var i :| 0 <= i < |PlannedTables(joins)| && PlannedTables(joins)[i] == t;
      assert ScanOf(bundle, PlannedTables(joins), Scans(lowered)[i], i);
    }
    if t in ScannedTables(lowered) {
      var i :| 0 <= i < |Scans(lowered)| && Scans(lowered)[i].table == t;
      assert ScanOf(bundle, PlannedTables(joins), Scans(lowered)[i], i);
    }
  }

  lemma SameObliged(bundle: Bundle, scope: Scope, request: Request, r: BindResult)
    requires BoundFrom(bundle, scope, request, r)
    ensures r.plan.obligations == r.closure.obligations
  {
    hide ClosureFor, JoinsFor, Authorized, Understood;
  }

  /** Where a column of an accepted and lowered plan comes from. */
  lemma ColumnOrigins(bundle: Bundle, scope: Scope, request: Request, r: BindResult, lowered: LogicalPlan)
    requires BoundFrom(bundle, scope, request, r) && LoweredFrom(bundle, scope, r, lowered)
    ensures var m := bundle.metrics[request.metricIds[0]];
            forall c :: c in PlanColumns(lowered) ==>
              || c in SeedColumns(m, r.plan.dimensions, r.plan.filters) || c in ObligedColumns(r.closure.obligations)
              || c in OnColumns(lowered.joins) || (c.table in PlannedTables(r.joins) && c in bundle.columns)
  {
    hide ClosureFor, JoinsFor, Authorized, Understood, BundleWellFormed, CatalogPublished, SeedColumns, WhereOf, GroupsOf, MeasuresOf,
      BucketOf, TenantConditions, PlanFor, LowerPlan, NeedsTenant, ObligedAt;
    UnderstoodMetric(bundle, scope, request, r.plan.dimensions, r.plan.filters);
    var id := request.metricIds[0];
    assert request.metricIds == [id];
    var m := bundle.metrics[id];
    LoweredParts(bundle, scope, r, lowered);
    var tenant := if NeedsTenant(r.plan.obligations) then TenantConditions(bundle, PlannedTables(r.joins)).value else [];
    WhereColumns(m, id, request, r.closure, r.plan, tenant);
    OutputIsSeed(m, id, request, r.closure, r.plan, lowered);
    if NeedsTenant(r.plan.obligations) {
      TenantColumns(bundle, PlannedTables(r.joins));
    }
    SameObliged(bundle, scope, request, r);
  }

  /**
    Every column of an accepted request's plan belongs to a scanned table and is published,
    each table is scanned once under its own alias, and every join has predicates that read
    its own table and tables scanned before it.
  */
  lemma ScopingIsClosed(bundle: Bundle, scope: Scope, request: Request, r: BindResult, lowered: LogicalPlan)
    requires BoundFrom(bundle, scope, request, r) && LoweredFrom(bundle, scope, r, lowered)
    ensures DistinctScans(Scans(lowered)) && JoinsHavePredicates(lowered.joins)
    ensures forall c :: c in PlanColumns(lowered) ==> c.table in ScannedTables(lowered) && c in bundle.columns
    ensures forall i, c :: 0 <= i < |lowered.joins| && c in ColumnsInAll(lowered.joins[i].predicates) ==>
              exists k :: 0 <= k <= i + 1 && Scans(lowered)[k].table == c.table
  {
    hide BoundFrom, LowerPlan, BundleWellFormed, PlanColumns, SeedColumns, ObligedColumns, Tree, DistinctScans, Lowered;
    var s := JoinTree(bundle, scope, request, r);
    PlannedAreDistinct(s, r.joins);
    LoweredJoins(bundle, scope, r.plan, r.joins, lowered);
    forall i | 0 <= i < |lowered.joins|
      ensures lowered.joins[i].predicates != []
      ensures forall c :: c in ColumnsInAll(lowered.joins[i].predicates) ==>
                exists k :: 0 <= k <= i + 1 && Scans(lowered)[k].table == c.table
    {
      OnReadsEarlierScans(bundle, r.joins, lowered, s, i);
    }
    ColumnOrigins(bundle, scope, request, r, lowered);
    forall c | c in PlanColumns(lowered)
      ensures c.table in ScannedTables(lowered) && c in bundle.columns
    {
      ColumnIsScanned(bundle, scope, request, r, lowered, s, c);
    }
  }

  lemma ColumnIsScanned(bundle: Bundle, scope: Scope, request: Request, r: BindResult, lowered: LogicalPlan, s: Search, c: ColumnId)
    requires BoundFrom(bundle, scope, request, r) && BundleWellFormed(bundle) && CatalogPublished(bundle)
    requires s.bundle == bundle && r.joins.base == s.base && Tree(s, r.joins.joins) && r.closure.reached.tables <= r.joins.Tables()
    requires AllLowered(r.joins.joins, lowered.joins) && ScansOf(bundle, PlannedTables(r.joins), Scans(lowered))
    requires var m := bundle.metrics[request.metricIds[0]];
             || c in SeedColumns(m, r.plan.dimensions, r.plan.filters) || c in ObligedColumns(r.closure.obligations)
             || c in OnColumns(lowered.joins) || (c.table in PlannedTables(r.joins) && c in bundle.columns)
    ensures c.table in ScannedTables(lowered) && c in bundle.columns
  {
    hide BundleWellFormed, SeedColumns, ObligedColumns, Tree, Lowered, ClosureFor, Authorized, PlanFor, CatalogPublished, Understood,
      JoinsFor, OnColumns, ScannedTables;
    PlannedAreDistinct(s, r.joins);
    PlannedIsScanned(bundle, r.joins, lowered, c.table);
    UnderstoodMetric(bundle, scope, request, r.plan.dimensions, r.plan.filters);
    var m := bundle.metrics[request.metricIds[0]];
    var seed := SeedOf(m, r.plan.dimensions, r.plan.filters);
    if c in SeedColumns(m, r.plan.dimensions, r.plan.filters) {
      SeedReached(bundle, scope, seed, m.requiredRules, r.closure);
      SeedPublished(bundle, scope, request, r);
      assert c.table in seed.tables;
    } else if c in ObligedColumns(r.closure.obligations) {
      ObligedIsReached(bundle, scope, request, r, c);
    } else if c in OnColumns(lowered.joins) {
      OnColumnIsScanned(bundle, r.joins, lowered, s, c);
    }
  }

  lemma ObligedIsReached(bundle: Bundle, scope: Scope, request: Request, r: BindResult, c: ColumnId)
    requires BoundFrom(bundle, scope, request, r) && CatalogPublished(bundle) && c in ObligedColumns(r.closure.obligations)
    ensures c.table in r.closure.reached.tables && c in bundle.columns
  {
    hide ClosureFor, Authorized, PlanFor, CatalogPublished, JoinsFor, ObligedColumns;
    var m := bundle.metrics[request.metricIds[0]];
    ObligationsReached(bundle, scope, SeedOf(m, r.plan.dimensions, r.plan.filters), m.requiredRules, r.closure, c);
  }

  lemma OnColumnIsScanned(bundle: Bundle, joins: JoinPlan, lowered: LogicalPlan, s: Search, c: ColumnId)
    requires BundleWellFormed(bundle) && CatalogPublished(bundle) && s.bundle == bundle && joins.base == s.base && Tree(s, joins.joins)
    requires AllLowered(joins.joins, lowered.joins) && ScansOf(bundle, PlannedTables(joins), Scans(lowered))
    requires c in OnColumns(lowered.joins)
    ensures c.table in ScannedTables(lowered) && c in bundle.columns
  {
    hide BundleWellFormed, Tree, Lowered, CatalogPublished, ScansOf;
    OnColumnsOf(lowered.joins, c);
    var i :| 0 <= i < |lowered.joins| && c in ColumnsInAll(lowered.joins[i].predicates);
    OnReadsEarlierScans(bundle, joins, lowered, s, i);
    JoinKeysPublished(bundle, s, joins, i);
  }

  lemma JoinKeysPublished(bundle: Bundle, s: Search, joins: JoinPlan, i: nat)
    requires CatalogPublished(bundle) && s.bundle == bundle && Tree(s, joins.joins) && i < |joins.joins|
    ensures JoinKeys(joins.joins[i].relationship.predicates) <= bundle.columns.Keys
  {
    assert Step(s, Visited(s.base, joins.joins[..i]), joins.joins[i]);
  }
}
