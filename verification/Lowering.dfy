/** Lowering a bound semantic plan and its join plan into the logical plan. */
module Lowering {
  import opened Errors
  import opened Values
  import opened Expressions
  import opened Catalog
  import opened SqlTree
  import opened Plans
  import opened Planner
  import opened RuleEngine

  datatype BoundMetric = BoundMetric(
    ref: string, expression: Measure, population: Option<Predicate>, baseTable: TableId, unit: Option<string>, alias: string)

  datatype BoundDimension = BoundDimension(ref: string, column: ColumnId, alias: string, relationship: Option<string>)

  datatype BoundTime = BoundTime(
    column: ColumnId, start: Value, endExclusive: Value, zone: string, grain: Option<Grain>, alias: Option<string>)

  datatype Contract = Contract(columns: seq<string>, grain: seq<string>, uniqueKeys: seq<string>)

  datatype BoundPlan = BoundPlan(
    metrics: seq<BoundMetric>,
    dimensions: seq<BoundDimension>,
    time: Option<BoundTime>,
    filters: seq<Predicate>,
    obligations: seq<Obligation>,
    metricRefs: seq<string>,
    orderBy: seq<SortKey>,
    limit: Option<nat>,
    contract: Contract)

  // -- joins ---------------------------------------------------------------------------------

  function LowerJoinPredicate(p: JoinPredicate): Outcome<Predicate> {
    var left, right := Column(p.left), Column(p.right);
    match p.op
    case On(op) => if op.Ne? then Raise(UnsupportedOperator) else Ok(Comparison(op, left, right))
    case LtOrNull => Ok(BoolOp(AnyOf, Comparison(Lt, left, right), [NullTest(false, right)]))
    case Unlisted(_) => Raise(UnsupportedOperator)
  }

  function LowerJoinPredicates(ps: seq<JoinPredicate>): (r: Outcome<seq<Predicate>>)
    ensures r.Ok? ==> |r.value| == |ps|
  {
    if ps == [] then Ok([])
    else
      var first :- LowerJoinPredicate(ps[0]);
      var rest :- LowerJoinPredicates(ps[1..]);
      Ok([first] + rest)
  }

  /** A table's alias is its position in the join order. */
  function PlannedTables(plan: JoinPlan): (ts: seq<TableId>)
    ensures |ts| == |plan.joins| + 1 && ts[0] == plan.base
    ensures forall i :: 0 <= i < |plan.joins| ==> ts[i + 1] == plan.joins[i].to
  {
    [plan.base] + JoinTargets(plan.joins)
  }

  function JoinTargets(joins: seq<PlannedJoin>): (ts: seq<TableId>)
    ensures |ts| == |joins| && forall i :: 0 <= i < |joins| ==> ts[i] == joins[i].to
  {
    if joins == [] then [] else [joins[0].to] + JoinTargets(joins[1..])
  }

  function AssignAliases(tables: seq<TableId>): map<TableId, Alias> {
    if tables == [] then map[]
    else var n := |tables| - 1; AssignAliases(tables[..n])[tables[n] := n]
  }

  function AliasOf(aliases: map<TableId, Alias>, t: TableId): Alias {
    if t in aliases then aliases[t] else 0
  }

  function LowerJoin(bundle: Bundle, scope: Scope, aliases: map<TableId, Alias>, j: PlannedJoin): Outcome<Join> {
    var right :- GetTable(bundle, j.to, scope);
    var predicates :- LowerJoinPredicates(j.relationship.predicates);
    Ok(Join(j.relationship.ref, AliasOf(aliases, j.from), AliasOf(aliases, j.to),
            Scan(right.id, right.physical, AliasOf(aliases, right.id)), j.relationship.joinType, predicates,
            j.relationship.cardinality, j.preserves))
  }

  function LowerJoins(bundle: Bundle, scope: Scope, aliases: map<TableId, Alias>, joins: seq<PlannedJoin>)
    : (r: Outcome<seq<Join>>)
    ensures r.Ok? ==> |r.value| == |joins|
    ensures r.Ok? ==> forall i :: 0 <= i < |joins| ==> LowerJoin(bundle, scope, aliases, joins[i]) == Ok(r.value[i])
  {
    if joins == [] then Ok([])
    else
      var first :- LowerJoin(bundle, scope, aliases, joins[0]);
      var rest :- LowerJoins(bundle, scope, aliases, joins[1..]);
      Ok([first] + rest)
  }

  // -- conditions --------------------------------------------------------------------------------

  const TENANT_RULE := "security.tenant_scope"
  const TENANT_TAG := "tenant_scoped"

  predicate NeedsTenant(obligations: seq<Obligation>) {
    exists o :: o in obligations && TENANT_RULE <= o.rule
  }

  function TenantCondition(key: ColumnId): Predicate {
    Comparison(Eq, Column(key), Parameter("p_tenant"))
  }

  /** One condition per scanned tenant-scoped table; a table without a key cannot be isolated. */
  function TenantConditions(bundle: Bundle, tables: seq<TableId>): Outcome<seq<Predicate>> {
    if tables == [] then Ok([])
    else if tables[0] !in bundle.tables || TENANT_TAG !in bundle.tables[tables[0]].tags then
      TenantConditions(bundle, tables[1..])
    else if bundle.tables[tables[0]].tenantKey.None? then Raise(ValidationFailed)
    else
      var rest :- TenantConditions(bundle, tables[1..]);
      Ok([TenantCondition(bundle.tables[tables[0]].tenantKey.value)] + rest)
  }

  function TimeConditions(time: Option<BoundTime>): seq<Predicate> {
    if time.None? then []
    else [Comparison(Gte, Column(time.value.column), Parameter("p_time_start")),
          Comparison(Lt, Column(time.value.column), Parameter("p_time_end"))]
  }

  function Populations(ms: seq<BoundMetric>): seq<Predicate> {
    if ms == [] then []
    else (if ms[0].population.Some? then [ms[0].population.value] else []) + Populations(ms[1..])
  }

  function ObligedAt(os: seq<Obligation>, placement: Placement): seq<Predicate> {
    if os == [] then []
    else
      var d := os[0].demand;
      (if d.condition.Some? && d.placement == placement then [d.condition.value] else []) + ObligedAt(os[1..], placement)
  }

  /** The placement of each kind of condition: tenant, time, population, obligations, user filters. */
  function WhereOf(plan: BoundPlan, tenant: seq<Predicate>): seq<Predicate> {
    tenant + TimeConditions(plan.time) + Populations(plan.metrics) + ObligedAt(plan.obligations, BeforeAggregation) + plan.filters
  }

  function BucketOf(time: Option<BoundTime>): Option<TimeBucket> {
    if time.Some? && time.value.grain.Some? && time.value.alias.Some?
    then Some(TimeBucket(time.value.alias.value, time.value.column, time.value.grain.value, time.value.zone))
    else None
  }

  function DimensionGroups(ds: seq<BoundDimension>): (gs: seq<(string, Option<ColumnId>)>)
    ensures |gs| == |ds| && forall i :: 0 <= i < |ds| ==> gs[i] == (ds[i].alias, Some(ds[i].column))
  {
    if ds == [] then [] else [(ds[0].alias, Some(ds[0].column))] + DimensionGroups(ds[1..])
  }

  function GroupsOf(plan: BoundPlan): seq<(string, Option<ColumnId>)> {
    var bucket := BucketOf(plan.time);
    (if bucket.Some? then [(bucket.value.alias, None)] else []) + DimensionGroups(plan.dimensions)
  }

  function MeasuresOf(ms: seq<BoundMetric>): (out: seq<(string, Measure)>)
    ensures |out| == |ms| && forall i :: 0 <= i < |ms| ==> out[i] == (ms[i].alias, ms[i].expression)
  {
    if ms == [] then [] else [(ms[0].alias, ms[0].expression)] + MeasuresOf(ms[1..])
  }

  function AliasesOf(gs: seq<(string, Option<ColumnId>)>): (out: seq<string>)
    ensures |out| == |gs| && forall i :: 0 <= i < |gs| ==> out[i] == gs[i].0
  {
    if gs == [] then [] else [gs[0].0] + AliasesOf(gs[1..])
  }

  function LowerPlan(bundle: Bundle, scope: Scope, plan: BoundPlan, joinPlan: JoinPlan): Outcome<LogicalPlan> {
    var aliases := AssignAliases(PlannedTables(joinPlan));
    var base :- GetTable(bundle, joinPlan.base, scope);
    var joins :- LowerJoins(bundle, scope, aliases, joinPlan.joins);
    var tenant :- if NeedsTenant(plan.obligations) then TenantConditions(bundle, PlannedTables(joinPlan)) else Ok([]);
    Ok(LogicalPlan(
      Scan(base.id, base.physical, AliasOf(aliases, base.id)), joins, WhereOf(plan, tenant), GroupsOf(plan),
      BucketOf(plan.time), MeasuresOf(plan.metrics), ObligedAt(plan.obligations, AfterAggregation), plan.orderBy,
      plan.limit, AliasesOf(GroupsOf(plan))))
  }

  // -- the loops ------------------------------------------------------------------------------------

  /** A list built so far, continued by what the rest of the input yields. */
  function Then<T>(done: seq<T>, rest: Outcome<seq<T>>): Outcome<seq<T>> {
    var more :- rest;
    Ok(done + more)
  }

  function Cons<T>(first: T, rest: Outcome<seq<T>>): Outcome<seq<T>> {
    var more :- rest;
    Ok([first] + more)
  }

  lemma ThenStart<T>(rest: Outcome<seq<T>>)
    ensures Then([], rest) == rest
  {
    assert rest.Ok? ==> [] + rest.value == rest.value;
  }

  lemma ThenStep<T>(done: seq<T>, first: T, rest: Outcome<seq<T>>)
    ensures Then(done, Cons(first, rest)) == Then(done + [first], rest)
  {
    assert rest.Ok? ==> done + ([first] + rest.value) == (done + [first]) + rest.value;
  }

  lemma ThenEnd<T>(done: seq<T>)
    ensures Then(done, Ok([])) == Ok(done)
  {
    assert done + [] == done;
  }

  method JoinPredicates(j: PlannedJoin) returns (r: Outcome<seq<Predicate>>)
    ensures r == LowerJoinPredicates(j.relationship.predicates)
  {
    var out: seq<Predicate> := [];
    var ps := j.relationship.predicates;
    assert ps[0..] == ps;
    ThenStart(LowerJoinPredicates(ps));
    for i := 0 to |ps|
      invariant LowerJoinPredicates(ps) == Then(out, LowerJoinPredicates(ps[i..]))
    {
      assert ps[i..][1..] == ps[i + 1..];
      var p :- LowerJoinPredicate(ps[i]);
      ThenStep(out, p, LowerJoinPredicates(ps[i + 1..]));
      out := out + [p];
    }
    ThenEnd(out);
    r := Ok(out);
  }

  method LowerOneJoin(bundle: Bundle, scope: Scope, aliases: map<TableId, Alias>, j: PlannedJoin) returns (r: Outcome<Join>)
    ensures r == LowerJoin(bundle, scope, aliases, j)
  {
    var right :- GetTable(bundle, j.to, scope);
    var predicates :- JoinPredicates(j);
    r := Ok(Join(j.relationship.ref, AliasOf(aliases, j.from), AliasOf(aliases, j.to),
                 Scan(right.id, right.physical, AliasOf(aliases, right.id)), j.relationship.joinType, predicates,
                 j.relationship.cardinality, j.preserves));
  }

  method Joins(bundle: Bundle, scope: Scope, aliases: map<TableId, Alias>, joins: seq<PlannedJoin>)
    returns (r: Outcome<seq<Join>>)
    ensures r == LowerJoins(bundle, scope, aliases, joins)
  {
    var out: seq<Join> := [];
    assert joins[0..] == joins;
    ThenStart(LowerJoins(bundle, scope, aliases, joins));
    for i := 0 to |joins|
      invariant LowerJoins(bundle, scope, aliases, joins) == Then(out, LowerJoins(bundle, scope, aliases, joins[i..]))
    {
      assert joins[i..][1..] == joins[i + 1..];
      var j :- LowerOneJoin(bundle, scope, aliases, joins[i]);
      ThenStep(out, j, LowerJoins(bundle, scope, aliases, joins[i + 1..]));
      out := out + [j];
    }
    ThenEnd(out);
    r := Ok(out);
  }

  method TenantScope(bundle: Bundle, plan: BoundPlan, tables: seq<TableId>) returns (r: Outcome<seq<Predicate>>)
    ensures r == if NeedsTenant(plan.obligations) then TenantConditions(bundle, tables) else Ok([])
  {
    var where: seq<Predicate> := [];
    if NeedsTenant(plan.obligations) {
      assert tables[0..] == tables;
      ThenStart(TenantConditions(bundle, tables));
      for i := 0 to |tables|
        invariant TenantConditions(bundle, tables) == Then(where, TenantConditions(bundle, tables[i..]))
      {
        assert tables[i..][1..] == tables[i + 1..];
        if tables[i] in bundle.tables && TENANT_TAG in bundle.tables[tables[i]].tags {
          var key := bundle.tables[tables[i]].tenantKey;
          if key.None? {
            return Raise(ValidationFailed);
          }
          ThenStep(where, TenantCondition(key.value), TenantConditions(bundle, tables[i + 1..]));
          where := where + [TenantCondition(key.value)];
        }
      }
      ThenEnd(where);
    }
    r := Ok(where);
  }

  lemma NoAliases(tables: seq<TableId>)
    ensures AssignAliases(tables[..0]) == map[]
  {
  }

  lemma NextAlias(tables: seq<TableId>, i: nat)
    requires i < |tables|
    ensures AssignAliases(tables[..i + 1]) == AssignAliases(tables[..i])[tables[i] := i]
  {
    assert tables[..i + 1][..i] == tables[..i];
  }

  method Lower(bundle: Bundle, scope: Scope, plan: BoundPlan, joinPlan: JoinPlan) returns (r: Outcome<LogicalPlan>)
    ensures r == LowerPlan(bundle, scope, plan, joinPlan)
  {
    hide LowerJoins, TenantConditions, NeedsTenant, GetTable, GroupsOf, BucketOf, MeasuresOf, AliasesOf, AliasOf, AssignAliases,
      Populations, ObligedAt, TimeConditions;
    var tables := PlannedTables(joinPlan);
    NoAliases(tables);
    var aliases: map<TableId, Alias> := map[];
    for i := 0 to |tables|
      invariant aliases == AssignAliases(tables[..i])
    {
      aliases := aliases[tables[i] := i];
      NextAlias(tables, i);
    }
    assert tables[..|tables|] == tables;
    var base :- GetTable(bundle, joinPlan.base, scope);
    var joins :- Joins(bundle, scope, aliases, joinPlan.joins);
    var where :- TenantScope(bundle, plan, tables);
    where := where + TimeConditions(plan.time);
    where := where + Populations(plan.metrics);
    where := where + ObligedAt(plan.obligations, BeforeAggregation);
    where := where + plan.filters;
    r := Ok(LogicalPlan(
      Scan(base.id, base.physical, AliasOf(aliases, base.id)), joins, where, GroupsOf(plan), BucketOf(plan.time),
      MeasuresOf(plan.metrics), ObligedAt(plan.obligations, AfterAggregation), plan.orderBy, plan.limit,
      AliasesOf(GroupsOf(plan))));
  }
}
