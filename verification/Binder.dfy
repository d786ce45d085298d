/** Binding a proposed semantic request into an authorized plan, its join plan and its rule closure. */
module Binder {
  import opened Errors
  import opened Values
  import opened Expressions
  import opened Catalog
  import opened Plans
  import opened Planner
  import opened JoinPlanning
  import opened Rules
  import opened RuleEngine
  import opened Lowering

  datatype FilterOp = Compares(op: CompareOp) | Among(negated: bool)

  datatype ProposedFilter = ProposedFilter(target: string, op: FilterOp, values: seq<Value>)

  /** A half-open period. */
  datatype TimeRange = TimeRange(start: int, endExclusive: int, zone: string)

  datatype Request = Request(
    metricIds: seq<string>,
    dimensionIds: seq<string>,
    filters: seq<ProposedFilter>,
    timeRange: Option<TimeRange>,
    timeGrain: Option<Grain>,
    orderBy: seq<SortKey>,
    limit: Option<nat>,
    attribution: Option<string>)

  datatype BindResult = BindResult(plan: BoundPlan, joins: JoinPlan, closure: ClosureResult)

  // -- output aliases --------------------------------------------------------------------------------

  /** What follows the last dot. */
  function Leaf(id: string): string {
    if '.' in id then Leaf(id[1..]) else id
  }

  function LowerCase(s: string): (r: string)
    ensures |r| == |s|
  {
    if s == [] then []
    else [if 'A' <= s[0] <= 'Z' then ((s[0] as int) + 32) as char else s[0]] + LowerCase(s[1..])
  }

  function Sanitize(s: string): (r: string)
    ensures |r| == |s|
  {
    if s == [] then []
    else
      var c := s[0];
      [if 'a' <= c <= 'z' || '0' <= c <= '9' || c == '_' then c else '_'] + Sanitize(s[1..])
  }

  function OutputAlias(id: string): string {
    Sanitize(LowerCase(Leaf(id)))
  }

  function MetricAlias(id: string, unit: Option<string>): string {
    OutputAlias(id) + if unit.Some? && unit.value != "" then "_" + LowerCase(unit.value) else ""
  }

  function GrainName(g: Grain): string {
    match g
    case Day => "day"
    case Week => "week"
    case Month => "month"
    case Quarter => "quarter"
    case Year => "year"
  }

  // -- what the request will project, as the repair sees it ---------------------------------------------

  function DimensionAliases(bundle: Bundle, ids: seq<string>): seq<string> {
    if ids == [] then []
    else (if ids[0] in bundle.dimensions then [OutputAlias(ids[0])] else []) + DimensionAliases(bundle, ids[1..])
  }

  function MetricAliases(bundle: Bundle, ids: seq<string>): seq<string> {
    if ids == [] then []
    else (if ids[0] in bundle.metrics then [MetricAlias(ids[0], bundle.metrics[ids[0]].unit)] else [])
         + MetricAliases(bundle, ids[1..])
  }

  function ExpectedColumns(bundle: Bundle, request: Request): seq<string> {
    (if request.timeRange.Some? && request.timeGrain.Some? then [GrainName(request.timeGrain.value)] else [])
    + DimensionAliases(bundle, request.dimensionIds) + MetricAliases(bundle, request.metricIds)
  }

  method ExpectedOutputColumns(bundle: Bundle, request: Request) returns (columns: seq<string>)
    ensures columns == ExpectedColumns(bundle, request)
  {
    columns := [];
    if request.timeRange.Some? && request.timeGrain.Some? {
      columns := columns + [GrainName(request.timeGrain.value)];
    }
    var ds, ms := request.dimensionIds, request.metricIds;
    ghost var start := columns;
    assert ds[0..] == ds && ms[0..] == ms;
    for i := 0 to |ds|
      invariant start + DimensionAliases(bundle, ds) == columns + DimensionAliases(bundle, ds[i..])
    {
      assert ds[i..][1..] == ds[i + 1..];
      if ds[i] in bundle.dimensions {
        assert columns + ([OutputAlias(ds[i])] + DimensionAliases(bundle, ds[i + 1..]))
            == (columns + [OutputAlias(ds[i])]) + DimensionAliases(bundle, ds[i + 1..]);
        columns := columns + [OutputAlias(ds[i])];
      } else {
        assert [] + DimensionAliases(bundle, ds[i + 1..]) == DimensionAliases(bundle, ds[i + 1..]);
      }
    }
    ghost var keys := columns;
    assert keys == start + DimensionAliases(bundle, ds);
    for i := 0 to |ms|
      invariant keys + MetricAliases(bundle, ms) == columns + MetricAliases(bundle, ms[i..])
    {
      assert ms[i..][1..] == ms[i + 1..];
      if ms[i] in bundle.metrics {
        var alias := MetricAlias(ms[i], bundle.metrics[ms[i]].unit);
        assert columns + ([alias] + MetricAliases(bundle, ms[i + 1..])) == (columns + [alias]) + MetricAliases(bundle, ms[i + 1..]);
        columns := columns + [alias];
      } else {
        assert [] + MetricAliases(bundle, ms[i + 1..]) == MetricAliases(bundle, ms[i + 1..]);
      }
    }
    assert columns + [] == columns;
  }

  // -- resolving the parts of a request -------------------------------------------------------------------

  /** Each column exists and may be discovered. */
  predicate Resolvable(bundle: Bundle, scope: Scope, cs: set<ColumnId>) {
    forall c :: c in cs ==> c in bundle.columns && (Discover, ColumnResource(c)) in scope.allowed
  }

  method ResolveColumns(bundle: Bundle, scope: Scope, cs: set<ColumnId>) returns (r: Outcome<()>)
    ensures r.Ok? <==> Resolvable(bundle, scope, cs)
    ensures r.Raise? ==> r.code in {ObjectNotFound, NotAuthorized}
  {
    var left := cs;
    while left != {}
      invariant left <= cs && Resolvable(bundle, scope, cs - left)
      decreases left
    {
      var c :| c in left;
      if c !in bundle.columns {
        return Raise(ObjectNotFound);
      }
      if (Discover, ColumnResource(c)) !in scope.allowed {
        return Raise(NotAuthorized);
      }
      left := left - {c};
    }
    assert cs - {} == cs;
    r := Ok(());
  }

  function PopulationColumns(m: Metric): set<ColumnId> {
    ConditionColumns(m.population)
  }

  function MetricColumns(m: Metric): set<ColumnId> {
    MeasureColumns(m.expression) + PopulationColumns(m) + {m.timeColumn}
  }

  predicate MetricUsable(bundle: Bundle, scope: Scope, id: string) {
    && id in bundle.metrics
    && (Discover, ObjectResource(id)) in scope.allowed && (ExecuteMetric, ObjectResource(id)) in scope.allowed
    && var m := bundle.metrics[id];
       && Resolvable(bundle, scope, MetricColumns(m))
       && ColumnsUsable(scope, PopulationColumns(m) + {m.timeColumn}, UseInPredicate)
       && ColumnsUsable(scope, MeasureColumns(m.expression), ReadData)
  }

  method ResolveMetric(bundle: Bundle, scope: Scope, id: string) returns (r: Outcome<Metric>)
    ensures r.Ok? <==> MetricUsable(bundle, scope, id)
    ensures r.Ok? ==> r.value == bundle.metrics[id]
    ensures r.Raise? ==> r.code in {ObjectNotFound, NotAuthorized}
  {
    if id !in bundle.metrics {
      return Raise(ObjectNotFound);
    }
    var m := bundle.metrics[id];
    if (Discover, ObjectResource(id)) !in scope.allowed || (ExecuteMetric, ObjectResource(id)) !in scope.allowed {
      return Raise(NotAuthorized);
    }
    var columns := ResolveColumns(bundle, scope, MetricColumns(m));
    if columns.Raise? {
      return Raise(columns.code);
    }
    if !ColumnsUsable(scope, PopulationColumns(m) + {m.timeColumn}, UseInPredicate)
       || !ColumnsUsable(scope, MeasureColumns(m.expression), ReadData) {
      return Raise(NotAuthorized);
    }
    r := Ok(m);
  }

  predicate DimensionAllowed(m: Metric, id: string) {
    m.allowedDimensions == [] || id in m.allowedDimensions
  }

  predicate DimensionUsable(bundle: Bundle, scope: Scope, m: Metric, id: string) {
    && id in bundle.dimensions && DimensionAllowed(m, id) && (Discover, ObjectResource(id)) in scope.allowed
    && var c := bundle.dimensions[id].column;
       c in bundle.columns && (Discover, ColumnResource(c)) in scope.allowed && (ReadData, ColumnResource(c)) in scope.allowed
  }

  function BoundDimensionOf(bundle: Bundle, id: string): BoundDimension
    requires id in bundle.dimensions
  {
    var d := bundle.dimensions[id];
    BoundDimension(d.ref, d.column, OutputAlias(id), d.relationship)
  }

  method BindDimensions(bundle: Bundle, scope: Scope, m: Metric, ids: seq<string>)
    returns (r: Outcome<(seq<BoundDimension>, set<string>)>)
    ensures r.Ok? <==> forall id :: id in ids ==> DimensionUsable(bundle, scope, m, id)
    ensures r.Ok? ==> |r.value.0| == |ids| && forall i :: 0 <= i < |ids| ==>
                ids[i] in bundle.dimensions && r.value.0[i] == BoundDimensionOf(bundle, ids[i])
    ensures r.Ok? ==> r.value.1 == RequiredRelationships(r.value.0)
    ensures r.Raise? ==> r.code in {ObjectNotFound, NotAuthorized, UnsupportedCapability}
    ensures r == Raise(UnsupportedCapability) ==> exists id :: id in ids && !DimensionAllowed(m, id)
  {
    var dims: seq<BoundDimension>, refs: set<string> := [], {};
    for i := 0 to |ids|
      invariant |dims| == i && forall n :: 0 <= n < i ==> DimensionUsable(bundle, scope, m, ids[n])
      invariant forall n :: 0 <= n < i ==> dims[n] == BoundDimensionOf(bundle, ids[n])
      invariant refs == RequiredRelationships(dims)
    {
      var id := ids[i];
      assert id in ids;
      if id !in bundle.dimensions {
        return Raise(ObjectNotFound);
      }
      var d := bundle.dimensions[id];
      if !DimensionAllowed(m, id) {
        return Raise(UnsupportedCapability);
      }
      if (Discover, ObjectResource(id)) !in scope.allowed {
        return Raise(NotAuthorized);
      }
      if d.column !in bundle.columns {
        return Raise(ObjectNotFound);
      }
      if (Discover, ColumnResource(d.column)) !in scope.allowed || (ReadData, ColumnResource(d.column)) !in scope.allowed {
        return Raise(NotAuthorized);
      }
      if d.relationship.Some? {
        refs := refs + {d.relationship.value};
      }
      RequiredGrows(dims, BoundDimensionOf(bundle, id));
      dims := dims + [BoundDimensionOf(bundle, id)];
    }
    r := Ok((dims, refs));
  }

  function RequiredRelationships(ds: seq<BoundDimension>): set<string> {
    set d | d in ds && d.relationship.Some? :: d.relationship.value
  }

  lemma RequiredGrows(ds: seq<BoundDimension>, d: BoundDimension)
    ensures RequiredRelationships(ds + [d]) == RequiredRelationships(ds) + if d.relationship.Some? then {d.relationship.value} else {}
  {
    assert forall x :: x in ds + [d] <==> x in ds || x == d;
  }

  // -- filters -----------------------------------------------------------------------------------------------

  /** A column identifier is its table's, a dot and a name. */
  function ColumnNamed(id: string): ColumnId {
    var leaf := Leaf(id);
    ColumnId(if |leaf| < |id| then id[..|id| - |leaf| - 1] else "", leaf)
  }

  /** A filter may name a dimension; otherwise it names a column. */
  function FilterColumn(bundle: Bundle, target: string): ColumnId {
    if target in bundle.dimensions then bundle.dimensions[target].column else ColumnNamed(target)
  }

  function Literals(vs: seq<Value>): (os: seq<Operand>)
    ensures |os| == |vs| && forall i :: 0 <= i < |vs| ==> os[i] == Literal(vs[i])
  {
    if vs == [] then [] else [Literal(vs[0])] + Literals(vs[1..])
  }

  function BindFilter(bundle: Bundle, scope: Scope, f: ProposedFilter): Outcome<Predicate> {
    var c := FilterColumn(bundle, f.target);
    if c !in bundle.columns then Raise(ObjectNotFound)
    else if (Discover, ColumnResource(c)) !in scope.allowed then Raise(NotAuthorized)
    else if (UseInPredicate, ColumnResource(c)) !in scope.allowed then Raise(NotAuthorized)
    else match f.op
      case Among(negated) => Ok(Membership(negated, Column(c), Literals(f.values)))
      case Compares(op) =>
        if |f.values| != 1 then Raise(UnsupportedOperator)
        else Ok(Comparison(op, Column(c), Literal(f.values[0])))
  }

  method BindFilters(bundle: Bundle, scope: Scope, fs: seq<ProposedFilter>) returns (r: Outcome<seq<Predicate>>)
    ensures r.Ok? <==> forall f :: f in fs ==> BindFilter(bundle, scope, f).Ok?
    ensures r.Ok? ==> |r.value| == |fs| && forall i :: 0 <= i < |fs| ==> BindFilter(bundle, scope, fs[i]) == Ok(r.value[i])
    ensures r.Raise? ==> r.code in {ObjectNotFound, NotAuthorized, UnsupportedOperator}
  {
    var out: seq<Predicate> := [];
    for i := 0 to |fs|
      invariant |out| == i && forall n :: 0 <= n < i ==> BindFilter(bundle, scope, fs[n]) == Ok(out[n])
    {
      assert fs[i] in fs;
      var p :- BindFilter(bundle, scope, fs[i]);
      out := out + [p];
    }
    r := Ok(out);
  }

  // -- time, seed and contract -----------------------------------------------------------------------------

  predicate GrainSupported(m: Metric, request: Request) {
    request.timeRange.Some? && request.timeGrain.Some? ==> request.timeGrain.value in m.grains
  }

  function BoundTimeOf(m: Metric, request: Request): Option<BoundTime> {
    if request.timeRange.None? then None
    else
      var range := request.timeRange.value;
      Some(BoundTime(m.timeColumn, Instant(range.start), Instant(range.endExclusive), range.zone, request.timeGrain,
                     if request.timeGrain.Some? then Some(GrainName(request.timeGrain.value)) else None))
  }

  function DimensionColumns(ds: seq<BoundDimension>): set<ColumnId> {
    set d | d in ds :: d.column
  }

  function SeedColumns(m: Metric, ds: seq<BoundDimension>, filters: seq<Predicate>): set<ColumnId> {
    MetricColumns(m) + DimensionColumns(ds) + ColumnsInAll(filters)
  }

  function SeedOf(m: Metric, ds: seq<BoundDimension>, filters: seq<Predicate>): Seed {
    var columns := SeedColumns(m, ds, filters);
    Seed(TablesOf(columns) + {m.baseTable}, columns, {m.ref}, {m.baseEntity}, RequiredRelationships(ds), map[])
  }

  function DimensionOutputs(ds: seq<BoundDimension>): (out: seq<string>)
    ensures |out| == |ds| && forall i :: 0 <= i < |ds| ==> out[i] == ds[i].alias
  {
    if ds == [] then [] else [ds[0].alias] + DimensionOutputs(ds[1..])
  }

  function GrainOutputs(time: Option<BoundTime>, ds: seq<BoundDimension>): seq<string> {
    (if time.Some? && time.value.alias.Some? then [time.value.alias.value] else []) + DimensionOutputs(ds)
  }

  function ContractOf(time: Option<BoundTime>, ds: seq<BoundDimension>, m: BoundMetric): Contract {
    var grain := GrainOutputs(time, ds);
    Contract(grain + [m.alias], grain, grain)
  }

  function Ascending(fields: seq<string>): seq<SortKey> {
    if fields == [] then [] else [SortKey(fields[0], false)] + Ascending(fields[1..])
  }

  function BoundMetricOf(m: Metric, id: string): BoundMetric {
    BoundMetric(m.ref, m.expression, m.population, m.baseTable, m.unit, MetricAlias(id, m.unit))
  }

  function PlannedKeys(js: seq<PlannedJoin>): set<ColumnId> {
    if js == [] then {} else JoinKeys(js[0].relationship.predicates) + PlannedKeys(js[1..])
  }

  function ObligedColumns(os: seq<Obligation>): set<ColumnId> {
    if os == [] then {} else ConditionColumns(os[0].demand.condition) + ObligedColumns(os[1..])
  }

  // -- what binding accepts ----------------------------------------------------------------------------------

  /** The closure is the least closed state above the seed, with exactly its obligations, and all required rules applied. */
  ghost predicate ClosureFor(bundle: Bundle, scope: Scope, seed: Seed, required: seq<string>, closure: ClosureResult) {
    && Closed(bundle, seed, closure.reached)
    && (forall other :: Closed(bundle, seed, other) ==> Within(closure.reached, other))
    && ObligationsExact(bundle, seed, closure) && RefsApplied(bundle, seed, closure)
    && Reauthorized(bundle, scope, seed, closure.reached)
    && closure.requirements == [] && forall ref :: ref in required ==> ref in closure.applied
  }

  predicate JoinsFor(bundle: Bundle, scope: Scope, base: TableId, closure: ClosureResult, refs: set<string>, joins: JoinPlan) {
    && joins.base == base && Connects(SearchFor(bundle, scope, base, closure.reached.tables, true), joins.joins)
    && closure.reached.tables <= joins.Tables() && joins.IsAdditiveSafe()
    && (closure.reached.tables <= {base} ==> joins.joins == [])
    && (refs <= RefSet(joins.joins) <==> refs == {} || !(closure.reached.tables <= {base}))
  }

  /** The request's own parts, each resolved and authorized. */
  predicate Understood(bundle: Bundle, scope: Scope, request: Request, dims: seq<BoundDimension>, filters: seq<Predicate>) {
    && |request.metricIds| == 1 && MetricUsable(bundle, scope, request.metricIds[0])
    && var m := bundle.metrics[request.metricIds[0]];
       && |dims| == |request.dimensionIds|
       && (forall i :: 0 <= i < |request.dimensionIds| ==>
             && DimensionUsable(bundle, scope, m, request.dimensionIds[i])
             && dims[i] == BoundDimensionOf(bundle, request.dimensionIds[i]))
       && GrainSupported(m, request)
       && |filters| == |request.filters|
       && (forall i :: 0 <= i < |request.filters| ==> BindFilter(bundle, scope, request.filters[i]) == Ok(filters[i]))
  }

  predicate PlanFor(m: Metric, request: Request, closure: ClosureResult, plan: BoundPlan)
    requires |request.metricIds| == 1
  {
    && plan.metrics == [BoundMetricOf(m, request.metricIds[0])] && plan.metricRefs == [m.ref]
    && plan.time == BoundTimeOf(m, request)
    && plan.obligations == closure.obligations
    && plan.contract == ContractOf(plan.time, plan.dimensions, plan.metrics[0])
    && (forall k :: k in request.orderBy ==> k.field in plan.contract.columns)
    && plan.orderBy == (if request.orderBy != [] then request.orderBy else Ascending(plan.contract.grain))
    && plan.limit == request.limit
  }

  /** Every column of the query: readable if it is part of the measure, usable in predicates otherwise. */
  predicate Authorized(scope: Scope, m: Metric, seed: Seed, obligations: seq<Obligation>, joins: seq<PlannedJoin>) {
    var measure := MeasureColumns(m.expression);
    && ColumnsUsable(scope, seed.columns + ObligedColumns(obligations) + PlannedKeys(joins) - measure, UseInPredicate)
    && ColumnsUsable(scope, measure, ReadData)
  }

  /** What accepting a request promises. */
  ghost predicate BoundFrom(bundle: Bundle, scope: Scope, request: Request, r: BindResult) {
    && Understood(bundle, scope, request, r.plan.dimensions, r.plan.filters)
    && var m := bundle.metrics[request.metricIds[0]];
       var seed := SeedOf(m, r.plan.dimensions, r.plan.filters);
       && PlanFor(m, request, r.closure, r.plan)
       && ClosureFor(bundle, scope, seed, m.requiredRules, r.closure)
       && JoinsFor(bundle, scope, m.baseTable, r.closure, seed.relationships + r.closure.reached.relationships, r.joins)
       && Authorized(scope, m, seed, r.plan.obligations, r.joins.joins)
  }

  method RequireRules(closure: ClosureResult, required: seq<string>) returns (r: Outcome<()>)
    ensures r.Ok? <==> closure.requirements == [] && forall ref :: ref in required ==> ref in closure.applied
    ensures r.Raise? ==> r.code == MandatoryRuleUnresolved
  {
    if closure.requirements != [] {
      return Raise(MandatoryRuleUnresolved);
    }
    for i := 0 to |required|
      invariant forall n :: 0 <= n < i ==> required[n] in closure.applied
    {
      assert required[i] in required;
      if required[i] !in closure.applied {
        return Raise(MandatoryRuleUnresolved);
      }
    }
    r := Ok(());
  }

  /** The columns accumulated for the final authorization sweep. */
  method SweptColumns(seed: set<ColumnId>, obligations: seq<Obligation>, joins: seq<PlannedJoin>) returns (all: set<ColumnId>)
    ensures all == seed + ObligedColumns(obligations) + PlannedKeys(joins)
  {
    all := seed;
    assert obligations[0..] == obligations && joins[0..] == joins;
    for i := 0 to |obligations|
      invariant seed + ObligedColumns(obligations) == all + ObligedColumns(obligations[i..])
    {
      assert obligations[i..][1..] == obligations[i + 1..];
      all := all + ConditionColumns(obligations[i].demand.condition);
    }
    ghost var obliged := all;
    for i := 0 to |joins|
      invariant obliged + PlannedKeys(joins) == all + PlannedKeys(joins[i..])
    {
      assert joins[i..][1..] == joins[i + 1..];
      all := all + JoinKeys(joins[i].relationship.predicates);
    }
  }

  method UnknownSortKeys(keys: seq<SortKey>, columns: seq<string>) returns (unknown: seq<string>)
    ensures unknown == [] <==> forall k :: k in keys ==> k.field in columns
    ensures unknown != [] ==> exists k :: k in keys && k.field == unknown[0] && k.field !in columns
  {
    unknown := [];
    for i := 0 to |keys|
      invariant unknown == [] <==> forall n :: 0 <= n < i ==> keys[n].field in columns
      invariant unknown != [] ==> exists k :: k in keys && k.field == unknown[0] && k.field !in columns
    {
      if keys[i].field !in columns {
        assert keys[i] in keys;
        unknown := unknown + [keys[i].field];
      }
    }
  }

  /** The causes of a request that asks for something not certified. */
  predicate Unsupported(bundle: Bundle, request: Request) {
    || |request.metricIds| != 1 || request.metricIds[0] !in bundle.metrics
    || !GrainSupported(bundle.metrics[request.metricIds[0]], request)
    || exists id :: id in request.dimensionIds && !DimensionAllowed(bundle.metrics[request.metricIds[0]], id)
  }

  /** The metric, the dimensions with the relationships they require, and the filters. */
  method Resolve(bundle: Bundle, scope: Scope, request: Request)
    returns (r: Outcome<(Metric, seq<BoundDimension>, set<string>, seq<Predicate>)>)
    ensures r.Ok? ==> Understood(bundle, scope, request, r.value.1, r.value.3) && r.value.0 == bundle.metrics[request.metricIds[0]]
    ensures r.Ok? ==> r.value.2 == RequiredRelationships(r.value.1)
    ensures r == Raise(UnsupportedCapability) ==> Unsupported(bundle, request)
    ensures r.Raise? ==> r.code in {UnsupportedCapability, ObjectNotFound, NotAuthorized, UnsupportedOperator}
  {
    if |request.metricIds| != 1 {
      return Raise(UnsupportedCapability);
    }
    var m :- ResolveMetric(bundle, scope, request.metricIds[0]);
    var bound :- BindDimensions(bundle, scope, m, request.dimensionIds);
    if request.timeRange.Some? && request.timeGrain.Some? && request.timeGrain.value !in m.grains {
      return Raise(UnsupportedCapability);
    }
    var filters :- BindFilters(bundle, scope, request.filters);
    assert forall i :: 0 <= i < |request.dimensionIds| ==> request.dimensionIds[i] in request.dimensionIds;
    r := Ok((m, bound.0, bound.1, filters));
  }

  method Bind(engine: Engine, bundle: Bundle, scope: Scope, request: Request) returns (r: Outcome<BindResult>)
    requires engine.Valid() && engine.bundle == bundle && DistinctRefs(bundle.relationships)
    ensures r.Ok? ==> BoundFrom(bundle, scope, request, r.value)
    ensures r == Raise(ValidationFailed) ==> exists k :: k in request.orderBy && k.field !in ExpectedColumns(bundle, request)
    ensures r == Raise(UnsupportedCapability) ==> Unsupported(bundle, request)
    // Neither the final fan-out check nor the conflict and ambiguity checks can fail.
    ensures r.Raise? ==> r.code in {UnsupportedCapability, ObjectNotFound, NotAuthorized, UnsupportedOperator,
                                    RuleClosureNotConverged, MandatoryRuleUnresolved, NoApprovedPath, ValidationFailed}
  {
    hide ObligationsExact, RefsApplied, Closed, Within, Reauthorized, Connects, RefSet, DistinctRefs, ColumnsUsable,
      Understood, ClosureFor, JoinsFor, Authorized, RequiredRelationships, Unsupported, ExpectedColumns, ContractOf, BoundTimeOf,
      After, SearchFor, Few, Best, Candidate, SeedColumns, ObligedColumns, PlannedKeys, MeasureColumns, Ascending;
    var resolved :- Resolve(bundle, scope, request);
    var (m, dims, refs, filters) := resolved;
    UnderstoodMetric(bundle, scope, request, dims, filters);
    var metric, time := BoundMetricOf(m, request.metricIds[0]), BoundTimeOf(m, request);
    var seed := SeedOf(m, dims, filters);
    var closure :- engine.Close(seed, scope);
    var rules :- RequireRules(closure, m.requiredRules);
    refs := refs + closure.reached.relationships;
    var joins :- Plan(bundle, scope, m.baseTable, closure.reached.tables, refs, true);
    if !joins.IsAdditiveSafe() {
      return Raise(FanOutUnproven);
    }
    var all := SweptColumns(seed.columns, closure.obligations, joins.joins);
    if !ColumnsUsable(scope, all - MeasureColumns(m.expression), UseInPredicate)
       || !ColumnsUsable(scope, MeasureColumns(m.expression), ReadData) {
      return Raise(NotAuthorized);
    }
    var contract := ContractOf(time, dims, metric);
    UnderstoodColumns(bundle, scope, request, dims, filters);
    var unknown := UnknownSortKeys(request.orderBy, contract.columns);
    if unknown != [] {
      return Raise(ValidationFailed);
    }
    var orderBy := if request.orderBy != [] then request.orderBy else Ascending(contract.grain);
    var plan := BoundPlan([metric], dims, time, filters, closure.obligations, [m.ref], orderBy, request.limit, contract);
    ClosureIs(bundle, scope, seed, m.requiredRules, closure);
    JoinsAre(bundle, scope, m.baseTable, closure, refs, joins);
    AuthorizedIs(scope, m, seed, closure.obligations, joins.joins, all);
    r := Ok(BindResult(plan, joins, closure));
  }

  lemma UnderstoodMetric(bundle: Bundle, scope: Scope, request: Request, dims: seq<BoundDimension>, filters: seq<Predicate>)
    requires Understood(bundle, scope, request, dims, filters)
    ensures |request.metricIds| == 1 && request.metricIds[0] in bundle.metrics
  {
  }

  lemma ClosureIs(bundle: Bundle, scope: Scope, seed: Seed, required: seq<string>, closure: ClosureResult)
    requires Closed(bundle, seed, closure.reached)
    requires forall other :: Closed(bundle, seed, other) ==> Within(closure.reached, other)
    requires ObligationsExact(bundle, seed, closure) && RefsApplied(bundle, seed, closure)
    requires Reauthorized(bundle, scope, seed, closure.reached)
    requires closure.requirements == [] && forall ref :: ref in required ==> ref in closure.applied
    ensures ClosureFor(bundle, scope, seed, required, closure)
  {
  }

  lemma JoinsAre(bundle: Bundle, scope: Scope, base: TableId, closure: ClosureResult, refs: set<string>, joins: JoinPlan)
    requires joins.base == base && Connects(SearchFor(bundle, scope, base, closure.reached.tables, true), joins.joins)
    requires closure.reached.tables <= joins.Tables() && joins.IsAdditiveSafe()
    requires closure.reached.tables <= {base} ==> joins.joins == []
    requires refs <= RefSet(joins.joins) <==> refs == {} || !(closure.reached.tables <= {base})
    ensures JoinsFor(bundle, scope, base, closure, refs, joins)
  {
  }

  lemma AuthorizedIs(scope: Scope, m: Metric, seed: Seed, obligations: seq<Obligation>, joins: seq<PlannedJoin>, all: set<ColumnId>)
    requires all == seed.columns + ObligedColumns(obligations) + PlannedKeys(joins)
    requires ColumnsUsable(scope, all - MeasureColumns(m.expression), UseInPredicate)
    requires ColumnsUsable(scope, MeasureColumns(m.expression), ReadData)
    ensures Authorized(scope, m, seed, obligations, joins)
  {
  }

  // -- the repair and the binder agree on what exists --------------------------------------------------------

  lemma {:induction false} DimensionAliasesAre(bundle: Bundle, ids: seq<string>, ds: seq<BoundDimension>)
    requires |ds| == |ids| && forall i :: 0 <= i < |ids| ==> ids[i] in bundle.dimensions && ds[i] == BoundDimensionOf(bundle, ids[i])
    ensures DimensionAliases(bundle, ids) == DimensionOutputs(ds)
  {
    if ids != [] {
      DimensionAliasesAre(bundle, ids[1..], ds[1..]);
    }
  }

  /** The columns that the repair expects are the columns that the contract declares. */
  lemma ExpectedAre(bundle: Bundle, request: Request, id: string, ds: seq<BoundDimension>)
    requires request.metricIds == [id] && id in bundle.metrics && |ds| == |request.dimensionIds|
    requires forall i :: 0 <= i < |ds| ==>
               request.dimensionIds[i] in bundle.dimensions && ds[i] == BoundDimensionOf(bundle, request.dimensionIds[i])
    ensures var m := bundle.metrics[id];
            ContractOf(BoundTimeOf(m, request), ds, BoundMetricOf(m, id)).columns == ExpectedColumns(bundle, request)
  {
    DimensionAliasesAre(bundle, request.dimensionIds, ds);
    assert request.metricIds[1..] == [];
    assert MetricAliases(bundle, request.metricIds[1..]) == [];
  }

  lemma UnderstoodColumns(bundle: Bundle, scope: Scope, request: Request, dims: seq<BoundDimension>, filters: seq<Predicate>)
    requires Understood(bundle, scope, request, dims, filters)
    ensures |request.metricIds| == 1 && request.metricIds[0] in bundle.metrics
    ensures var m := bundle.metrics[request.metricIds[0]];
            ContractOf(BoundTimeOf(m, request), dims, BoundMetricOf(m, request.metricIds[0])).columns == ExpectedColumns(bundle, request)
  {
    ExpectedAre(bundle, request, request.metricIds[0], dims);
  }

  lemma ExpectedColumnsAreTheContract(bundle: Bundle, scope: Scope, request: Request, r: BindResult)
    requires BoundFrom(bundle, scope, request, r)
    ensures r.plan.contract.columns == ExpectedColumns(bundle, request)
  {
    UnderstoodColumns(bundle, scope, request, r.plan.dimensions, r.plan.filters);
  }
}
