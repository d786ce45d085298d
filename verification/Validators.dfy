/**
  The validation gates. They read the statement parsed back from the emitted text, the logical
  plan and the bound plan, and report findings; a report without findings passes.
*/
module Validators {
  import opened Errors
  import opened Values
  import opened Expressions
  import opened Catalog
  import opened SqlTree
  import opened Plans
  import opened SqlQuery
  import opened Emissions
  import RE = RuleEngine
  import opened Rules
  import opened Lowering

  // -- what the gates read off the statement ---------------------------------------------------

  function Refs(s: Select): seq<TableRef> {
    [s.from] + JoinedRefs(s.joins)
  }

  function JoinedRefs(joins: seq<SqlJoin>): (refs: seq<TableRef>)
    ensures |refs| == |joins| && forall i :: 0 <= i < |joins| ==> refs[i] == joins[i].table
  {
    if joins == [] then [] else [joins[0].table] + JoinedRefs(joins[1..])
  }

  /** The published table with a physical name. */
  function FindPhysical(bundle: Bundle, physical: string): (r: Option<TableId>)
    requires PhysicalUnique(bundle)
    ensures r.Some? ==> r.value in bundle.tables && bundle.tables[r.value].physical == physical
    ensures r.None? ==> forall t :: t in bundle.tables ==> bundle.tables[t].physical != physical
  {
    if exists t :: t in bundle.tables && bundle.tables[t].physical == physical then
      var t :| t in bundle.tables && bundle.tables[t].physical == physical;
      Some(t)
    else None
  }

  function SqlAliases(bundle: Bundle, refs: seq<TableRef>): map<Alias, TableId>
    requires PhysicalUnique(bundle)
  {
    if refs == [] then map[]
    else
      var n := |refs| - 1;
      var before := SqlAliases(bundle, refs[..n]);
      var t := FindPhysical(bundle, refs[n].physical);
      if t.Some? then before[refs[n].alias := t.value] else before
  }

  function MeasureText(m: SqlMeasure): set<(Alias, string)> {
    match m
    case SqlAggregate(_, _, None) => {}
    case SqlAggregate(_, _, Some(s)) => ScalarColumns(s)
    case SqlDiv(l, r) => MeasureText(l) + MeasureText(r)
    case SqlNullIfZero(a) => MeasureText(a)
  }

  function OutText(e: OutExpr): set<(Alias, string)> {
    match e
    case Plain(s) => ScalarColumns(s)
    case DateTrunc(_, _, s) => ScalarColumns(s)
    case Measured(m) => MeasureText(m)
  }

  function ProjectionText(ps: seq<Projection>): set<(Alias, string)> {
    if ps == [] then {} else OutText(ps[0].expr) + ProjectionText(ps[1..])
  }

  function GroupText(es: seq<OutExpr>): set<(Alias, string)> {
    if es == [] then {} else OutText(es[0]) + GroupText(es[1..])
  }

  function OnText(joins: seq<SqlJoin>): set<(Alias, string)> {
    if joins == [] then {} else CondColumns(joins[0].on) + OnText(joins[1..])
  }

  function ClauseText(c: Option<Cond>): set<(Alias, string)> {
    if c.None? then {} else CondColumns(c.value)
  }

  /** Every qualified column of the statement. */
  function StatementText(s: Select): set<(Alias, string)> {
    ProjectionText(s.projections) + OnText(s.joins) + ClauseText(s.where) + GroupText(s.group) + ClauseText(s.having)
  }

  /** The catalog columns that qualified columns stand for; an unknown alias stands for none. */
  function Resolved(aliases: map<Alias, TableId>, xs: set<(Alias, string)>): set<ColumnId> {
    set x | x in xs && x.0 in aliases :: ColumnId(aliases[x.0], x.1)
  }

  function OutputNames(ps: seq<Projection>): (names: seq<string>)
    ensures |names| == |ps| && forall i :: 0 <= i < |ps| ==> names[i] == ps[i].alias
  {
    if ps == [] then [] else [ps[0].alias] + OutputNames(ps[1..])
  }

  // -- node kinds ----------------------------------------------------------------------------------

  datatype Node =
    | ColumnNode | PlaceholderNode | EqNode | NeqNode | LtNode | LteNode | GtNode | GteNode | IsNode | InNode | NotNode
    | AndNode | OrNode | ParenNode | SumNode | CountNode | AvgNode | MinNode | MaxNode | DistinctNode | StarNode | DivNode
    | NullifNode | TruncNode | AtTimeZoneNode

  /** Of the kinds the compiler emits, the allowlist misses NULLIF. */
  const Allowed: set<Node> :=
    {ColumnNode, PlaceholderNode, EqNode, NeqNode, LtNode, LteNode, GtNode, GteNode, IsNode, InNode, NotNode, AndNode, OrNode,
     ParenNode, SumNode, CountNode, AvgNode, MinNode, MaxNode, DistinctNode, StarNode, DivNode, TruncNode, AtTimeZoneNode}

  function ScalarNodes(s: Scalar): set<Node> {
    if s.Col? then {ColumnNode} else {PlaceholderNode}
  }

  function ListNodes(ss: seq<Scalar>): set<Node> {
    if ss == [] then {} else ScalarNodes(ss[0]) + ListNodes(ss[1..])
  }

  function CompareNode(op: CompareOp): Node {
    match op
    case Eq => EqNode
    case Ne => NeqNode
    case Lt => LtNode
    case Lte => LteNode
    case Gt => GtNode
    case Gte => GteNode
  }

  function CondNodes(c: Cond): set<Node> {
    match c
    case SqlCompare(op, l, r) => {CompareNode(op)} + ScalarNodes(l) + ScalarNodes(r)
    case SqlIsNull(s) => {IsNode} + ScalarNodes(s)
    case SqlIn(l, ms) => {InNode} + ScalarNodes(l) + ListNodes(ms)
    case SqlNot(a) => {NotNode} + CondNodes(a)
    case SqlChain(j, l, r) => {if j.Conj? then AndNode else OrNode} + CondNodes(l) + CondNodes(r)
    case SqlParen(a) => {ParenNode} + CondNodes(a)
  }

  function AggregateNode(op: AggregateOp): Node {
    match op
    case Sum => SumNode
    case Count => CountNode
    case CountDistinct => CountNode
    case Avg => AvgNode
    case Min => MinNode
    case Max => MaxNode
  }

  function MeasureNodes(m: SqlMeasure): set<Node> {
    match m
    case SqlAggregate(fn, distinct, argument) =>
      {AggregateNode(fn)} + (if distinct then {DistinctNode} else {})
      + (if argument.Some? then ScalarNodes(argument.value) else {StarNode})
    case SqlDiv(l, r) => {DivNode} + MeasureNodes(l) + MeasureNodes(r)
    case SqlNullIfZero(a) => {NullifNode} + MeasureNodes(a)
  }

  function OutNodes(e: OutExpr): set<Node> {
    match e
    case Plain(s) => ScalarNodes(s)
    case DateTrunc(_, zone, s) => {TruncNode} + (if zone.Some? then {AtTimeZoneNode} else {}) + ScalarNodes(s)
    case Measured(m) => MeasureNodes(m)
  }

  function ProjectionNodes(ps: seq<Projection>): set<Node> {
    if ps == [] then {} else OutNodes(ps[0].expr) + ProjectionNodes(ps[1..])
  }

  function GroupNodes(es: seq<OutExpr>): set<Node> {
    if es == [] then {} else OutNodes(es[0]) + GroupNodes(es[1..])
  }

  function OnNodes(joins: seq<SqlJoin>): set<Node> {
    if joins == [] then {} else CondNodes(joins[0].on) + OnNodes(joins[1..])
  }

  function ClauseNodes(c: Option<Cond>): set<Node> {
    if c.None? then {} else CondNodes(c.value)
  }

  function StatementNodes(s: Select): set<Node> {
    ProjectionNodes(s.projections) + OnNodes(s.joins) + ClauseNodes(s.where) + GroupNodes(s.group) + ClauseNodes(s.having)
  }

  // -- what each gate asks ----------------------------------------------------------------------------

  predicate TableDeclared(bundle: Bundle, q: CompiledQuery, ref: TableRef)
    requires PhysicalUnique(bundle)
  {
    var t := FindPhysical(bundle, ref.physical);
    t.Some? && t.value in q.referencedTables && bundle.tables[t.value].certified
  }

  predicate ColumnsDeclared(bundle: Bundle, s: Select, q: CompiledQuery)
    requires PhysicalUnique(bundle)
  {
    && (forall c :: c in Resolved(SqlAliases(bundle, Refs(s)), StatementText(s)) ==> c in bundle.columns && c in q.referencedColumns)
    && (forall k :: k in s.order ==> k.field in OutputNames(s.projections))
  }

  predicate JoinApproved(bundle: Bundle, scope: Scope, j: Join) {
    var rel := GetRelationship(bundle, j.relationship, scope);
    rel.Ok? && |j.predicates| == |rel.value.predicates|
  }

  /** A join that cites no approved relationship is reported by another gate. */
  predicate OnComplete(bundle: Bundle, scope: Scope, j: Join, on: Cond) {
    var rel := GetRelationship(bundle, j.relationship, scope);
    rel.Ok? ==> |Conjuncts(on)| == |rel.value.predicates|
  }

  predicate HasDistinct(m: SqlMeasure) {
    match m
    case SqlAggregate(_, distinct, _) => distinct
    case SqlDiv(l, r) => HasDistinct(l) || HasDistinct(r)
    case SqlNullIfZero(a) => HasDistinct(a)
  }

  predicate CountsDistinct(m: Measure) {
    m.Aggregate? && m.op.CountDistinct?
  }

  predicate DistinctDeclared(plan: BoundPlan, p: Projection) {
    p.expr.Measured? && HasDistinct(p.expr.m) ==>
      exists m :: m in plan.metrics && CountsDistinct(m.expression) && m.alias == p.alias
  }

  function MeasuredBy(ms: seq<BoundMetric>): set<ColumnId> {
    if ms == [] then {} else MeasureColumns(ms[0].expression) + MeasuredBy(ms[1..])
  }

  predicate ReferencesAllowed(scope: Scope, q: CompiledQuery, plan: BoundPlan) {
    && (forall c :: c in q.referencedColumns ==>
          (if c in MeasuredBy(plan.metrics) then ReadData else UseInPredicate, ColumnResource(c)) in scope.allowed)
    && (forall t :: t in q.referencedTables ==> (Discover, TableResource(t)) in scope.allowed)
    && (forall ref :: ref in plan.metricRefs ==> (ExecuteMetric, ObjectResource(IdOf(ref))) in scope.allowed)
  }

  /** A pinned reference is an identifier, "@" and a version. */
  function IdOf(ref: string): string {
    if ref == [] || ref[0] == '@' then [] else [ref[0]] + IdOf(ref[1..])
  }

  predicate MetricIntact(bundle: Bundle, m: BoundMetric, ref: string) {
    && IdOf(ref) in bundle.metrics
    && var record := bundle.metrics[IdOf(ref)];
       record.ref == ref && m.expression == record.expression && m.population == record.population && m.unit == record.unit
  }

  predicate IsTenantKey(bundle: Bundle, c: ColumnId) {
    c in bundle.columns && bundle.columns[c].isTenantKey
  }

  /** An obligation has its condition's columns at its place, or isolates every tenant-scoped scan. */
  predicate ObligationShown(bundle: Bundle, o: RE.Obligation, scanned: set<TableId>, where: set<ColumnId>, having: set<ColumnId>) {
    if o.demand.condition.Some? then
      ColumnsIn(o.demand.condition.value) <= (if o.demand.placement.BeforeAggregation? then where else having)
    else TENANT_RULE <= o.rule ==>
      forall t :: t in scanned ==>
        && t in bundle.tables
        && (TENANT_TAG in bundle.tables[t].tags ==> exists c :: c in where && c.table == t && IsTenantKey(bundle, c))
  }

  function Plainly(ps: seq<Projection>): nat {
    if ps == [] then 0 else (if ps[0].expr.Measured? then 0 else 1) + Plainly(ps[1..])
  }

  predicate TimeDeclared(bundle: Bundle, time: Option<BoundTime>) {
    time.Some? ==>
      && Compare(Lt, time.value.start, time.value.endExclusive) == Yes
      && time.value.column in bundle.columns && bundle.columns[time.value.column].hasTimeRole
  }

  predicate Additive(plan: BoundPlan) {
    exists m :: m in plan.metrics && m.expression.Aggregate? && (m.expression.op.Sum? || m.expression.op.Avg?)
  }

  datatype Inputs = Inputs(s: Select, q: CompiledQuery, logical: LogicalPlan, plan: BoundPlan)

  /** What the gates accept together. */
  predicate Accepts(bundle: Bundle, scope: Scope, x: Inputs)
    requires PhysicalUnique(bundle)
  {
    var aliases := SqlAliases(bundle, Refs(x.s));
    && StatementNodes(x.s) <= Allowed
    && StatementHoles(x.s) == |x.q.values|
    && (forall ref :: ref in Refs(x.s) ==> TableDeclared(bundle, x.q, ref))
    && ColumnsDeclared(bundle, x.s, x.q)
    && (forall j :: j in x.logical.joins ==> JoinApproved(bundle, scope, j))
    && |x.s.joins| == |x.logical.joins|
    && (forall i :: 0 <= i < |x.s.joins| ==> OnComplete(bundle, scope, x.logical.joins[i], x.s.joins[i].on))
    && (forall p :: p in x.s.projections ==> DistinctDeclared(x.plan, p))
    && ReferencesAllowed(scope, x.q, x.plan)
    && MetricsIntact(bundle, x.plan)
    && (forall o :: o in x.plan.obligations ==>
          ObligationShown(bundle, o, ScannedTables(x.logical), ColumnsInAll(x.logical.where), ColumnsInAll(x.logical.having)))
    && (forall o :: o in x.plan.obligations ==>
          ObligationShown(bundle, o, ScannedTables(x.logical), Resolved(aliases, ClauseText(x.s.where)),
                          Resolved(aliases, ClauseText(x.s.having))))
    && Elements(x.plan.contract.grain) == Elements(x.logical.outputGrain)
    && Plainly(x.s.projections) == |x.s.group|
    && TimeDeclared(bundle, x.plan.time)
    && (Additive(x.plan) ==> forall j :: j in x.logical.joins ==> j.preservesLeft)
  }

  predicate MetricsIntact(bundle: Bundle, plan: BoundPlan) {
    forall i :: 0 <= i < |plan.metrics| && i < |plan.metricRefs| ==> MetricIntact(bundle, plan.metrics[i], plan.metricRefs[i])
  }

  // -- the gates ----------------------------------------------------------------------------------------

  method GateParameters(x: Inputs) returns (out: seq<ReasonCode>)
    ensures out == [] <==> StatementHoles(x.s) == |x.q.values|
  {
    out := if StatementHoles(x.s) != |x.q.values| then [CompilerDefect] else [];
  }

  method GateAllowedNodes(x: Inputs) returns (out: seq<ReasonCode>)
    ensures out == [] <==> StatementNodes(x.s) <= Allowed
  {
    out := [];
    var nodes := StatementNodes(x.s);
    while nodes != {}
      invariant nodes <= StatementNodes(x.s)
      invariant out == [] <==> StatementNodes(x.s) - nodes <= Allowed
      decreases nodes
    {
      var n :| n in nodes;
      if n !in Allowed {
        out := out + [UnsafeQuery];
        assert n in StatementNodes(x.s) - (nodes - {n});
      }
      nodes := nodes - {n};
    }
    assert StatementNodes(x.s) - {} == StatementNodes(x.s);
  }

  method GateTables(bundle: Bundle, x: Inputs) returns (out: seq<ReasonCode>)
    requires PhysicalUnique(bundle)
    ensures out == [] <==> forall ref :: ref in Refs(x.s) ==> TableDeclared(bundle, x.q, ref)
    ensures forall code :: code in out ==> code in {UnresolvedReference, UnsupportedCapability}
  {
    out := [];
    var refs := Refs(x.s);
    for i := 0 to |refs|
      invariant out == [] <==> forall n :: 0 <= n < i ==> TableDeclared(bundle, x.q, refs[n])
      invariant forall code :: code in out ==> code in {UnresolvedReference, UnsupportedCapability}
    {
      var t := FindPhysical(bundle, refs[i].physical);
      if t.None? {
        out := out + [UnresolvedReference];
      } else {
        if t.value !in x.q.referencedTables {
          out := out + [UnresolvedReference];
        }
        if !bundle.tables[t.value].certified {
          out := out + [UnsupportedCapability];
        }
      }
    }
  }

  method GateColumns(bundle: Bundle, x: Inputs) returns (out: seq<ReasonCode>)
    requires PhysicalUnique(bundle)
    ensures out == [] <==> ColumnsDeclared(bundle, x.s, x.q)
    ensures forall code :: code in out ==> code == UnresolvedReference
  {
    out := [];
    var aliases, outputs := SqlAliases(bundle, Refs(x.s)), OutputNames(x.s.projections);
    for i := 0 to |x.s.order|
      invariant out == [] <==> forall n :: 0 <= n < i ==> x.s.order[n].field in outputs
      invariant forall code :: code in out ==> code == UnresolvedReference
    {
      if x.s.order[i].field !in outputs {
        out := out + [UnresolvedReference];
      }
    }
    ghost var ordered := forall k :: k in x.s.order ==> k.field in outputs;
    var all := Resolved(aliases, StatementText(x.s));
    var left := all;
    while left != {}
      invariant left <= all
      invariant out == [] <==> ordered && forall c :: c in all - left ==> c in bundle.columns && c in x.q.referencedColumns
      invariant forall code :: code in out ==> code == UnresolvedReference
      decreases left
    {
      var c :| c in left;
      if c !in bundle.columns || c !in x.q.referencedColumns {
        out := out + [UnresolvedReference];
        assert c in all - (left - {c});
      }
      left := left - {c};
    }
    assert all - {} == all;
  }

  method GateJoinsApproved(bundle: Bundle, scope: Scope, x: Inputs) returns (out: seq<ReasonCode>)
    ensures out == [] <==> forall j :: j in x.logical.joins ==> JoinApproved(bundle, scope, j)
    ensures forall code :: code in out ==> code in {NoApprovedPath, ValidationFailed}
  {
    out := [];
    var joins := x.logical.joins;
    for i := 0 to |joins|
      invariant out == [] <==> forall n :: 0 <= n < i ==> JoinApproved(bundle, scope, joins[n])
      invariant forall code :: code in out ==> code in {NoApprovedPath, ValidationFailed}
    {
      var rel := GetRelationship(bundle, joins[i].relationship, scope);
      if rel.Raise? {
        out := out + [NoApprovedPath];
      } else if |joins[i].predicates| != |rel.value.predicates| {
        out := out + [ValidationFailed];
      }
    }
  }

  method GateJoinPredicates(bundle: Bundle, scope: Scope, x: Inputs) returns (out: seq<ReasonCode>)
    ensures out == [] <==>
              && |x.s.joins| == |x.logical.joins|
              && forall i :: 0 <= i < |x.s.joins| ==> OnComplete(bundle, scope, x.logical.joins[i], x.s.joins[i].on)
    ensures forall code :: code in out ==> code == ValidationFailed
  {
    if |x.s.joins| != |x.logical.joins| {
      return [ValidationFailed];
    }
    out := [];
    for i := 0 to |x.s.joins|
      invariant out == [] <==> forall n :: 0 <= n < i ==> OnComplete(bundle, scope, x.logical.joins[n], x.s.joins[n].on)
      invariant forall code :: code in out ==> code == ValidationFailed
    {
      var rel := GetRelationship(bundle, x.logical.joins[i].relationship, scope);
      if rel.Ok? && |Conjuncts(x.s.joins[i].on)| != |rel.value.predicates| {
        out := out + [ValidationFailed];
      }
    }
  }

  method GateAggregates(x: Inputs) returns (out: seq<ReasonCode>)
    ensures out == [] <==> forall p :: p in x.s.projections ==> DistinctDeclared(x.plan, p)
    ensures forall code :: code in out ==> code == ValidationFailed
  {
    var declared := set m | m in x.plan.metrics && CountsDistinct(m.expression) :: m.alias;
    out := [];
    var ps := x.s.projections;
    for i := 0 to |ps|
      invariant out == [] <==> forall n :: 0 <= n < i ==> DistinctDeclared(x.plan, ps[n])
      invariant forall code :: code in out ==> code == ValidationFailed
    {
      if ps[i].expr.Measured? && HasDistinct(ps[i].expr.m) && ps[i].alias !in declared {
        out := out + [ValidationFailed];
      }
    }
  }

  method GateAuthorization(scope: Scope, x: Inputs) returns (out: seq<ReasonCode>)
    ensures out == [] <==> ReferencesAllowed(scope, x.q, x.plan)
    ensures forall code :: code in out ==> code == NotAuthorized
  {
    out := [];
    var measure := MeasuredBy(x.plan.metrics);
    var columns := x.q.referencedColumns;
    while columns != {}
      invariant columns <= x.q.referencedColumns
      invariant out == [] <==> forall c :: c in x.q.referencedColumns - columns ==>
                  (if c in measure then ReadData else UseInPredicate, ColumnResource(c)) in scope.allowed
      invariant forall code :: code in out ==> code == NotAuthorized
      decreases columns
    {
      var c :| c in columns;
      if (if c in measure then ReadData else UseInPredicate, ColumnResource(c)) !in scope.allowed {
        out := out + [NotAuthorized];
        assert c in x.q.referencedColumns - (columns - {c});
      }
      columns := columns - {c};
    }
    assert x.q.referencedColumns - {} == x.q.referencedColumns;
    ghost var columnsAllowed := out == [];
    var tables := x.q.referencedTables;
    while tables != {}
      invariant tables <= x.q.referencedTables
      invariant out == [] <==> columnsAllowed && forall t :: t in x.q.referencedTables - tables ==> (Discover, TableResource(t)) in scope.allowed
      invariant forall code :: code in out ==> code == NotAuthorized
      decreases tables
    {
      var t :| t in tables;
      if (Discover, TableResource(t)) !in scope.allowed {
        out := out + [NotAuthorized];
        assert t in x.q.referencedTables - (tables - {t});
      }
      tables := tables - {t};
    }
    assert x.q.referencedTables - {} == x.q.referencedTables;
    ghost var tablesAllowed := out == [];
    var refs := x.plan.metricRefs;
    for i := 0 to |refs|
      invariant out == [] <==> tablesAllowed && forall n :: 0 <= n < i ==> (ExecuteMetric, ObjectResource(IdOf(refs[n]))) in scope.allowed
      invariant forall code :: code in out ==> code == NotAuthorized
    {
      if (ExecuteMetric, ObjectResource(IdOf(refs[i]))) !in scope.allowed {
        out := out + [NotAuthorized];
      }
    }
  }

  method GateMetricIntegrity(bundle: Bundle, x: Inputs) returns (out: seq<ReasonCode>)
    ensures out == [] <==> MetricsIntact(bundle, x.plan)
    ensures forall code :: code in out ==> code == ValidationFailed
  {
    out := [];
    var n := if |x.plan.metrics| < |x.plan.metricRefs| then |x.plan.metrics| else |x.plan.metricRefs|;
    for i := 0 to n
      invariant out == [] <==> forall k :: 0 <= k < i ==> MetricIntact(bundle, x.plan.metrics[k], x.plan.metricRefs[k])
      invariant forall code :: code in out ==> code == ValidationFailed
    {
      var bound, ref := x.plan.metrics[i], x.plan.metricRefs[i];
      // A gate that cannot look its metric up has not proven anything: it blocks.
      if IdOf(ref) !in bundle.metrics || bundle.metrics[IdOf(ref)].ref != ref {
        return [ValidationFailed];
      }
      var record := bundle.metrics[IdOf(ref)];
      if bound.expression != record.expression {
        out := out + [ValidationFailed];
      }
      if bound.population != record.population {
        out := out + [ValidationFailed];
      }
      if bound.unit != record.unit {
        out := out + [ValidationFailed];
      }
    }
  }

  /** The obligation gate, over the plan's columns or over those re-read from the text. */
  method GateObligations(bundle: Bundle, x: Inputs, where: set<ColumnId>, having: set<ColumnId>) returns (out: seq<ReasonCode>)
    ensures out == [] <==> forall o :: o in x.plan.obligations ==> ObligationShown(bundle, o, ScannedTables(x.logical), where, having)
  {
    out := [];
    var os, scanned := x.plan.obligations, ScannedTables(x.logical);
    for i := 0 to |os|
      invariant out == [] <==> forall n :: 0 <= n < i ==> ObligationShown(bundle, os[n], scanned, where, having)
    {
      var o := os[i];
      if o.demand.condition.Some? {
        var target := if o.demand.placement.BeforeAggregation? then where else having;
        var missing := ColumnsIn(o.demand.condition.value) - target;
        assert ColumnsIn(o.demand.condition.value) <= target <==> missing == {} by {
          assert forall c :: c in ColumnsIn(o.demand.condition.value) ==> c in target || c in missing;
        }
        if missing != {} {
          out := out + [MandatoryRuleUnresolved];
        }
      } else if TENANT_RULE <= o.rule {
        if !(scanned <= bundle.tables.Keys) {
          UnknownScan(bundle, o, scanned, where, having);
          assert o in os;
          return [ValidationFailed];
        }
        var needs := set t | t in scanned && TENANT_TAG in bundle.tables[t].tags;
        var covered := set c | c in where && IsTenantKey(bundle, c) :: c.table;
        KnownScans(bundle, o, scanned, where, having);
        if !(needs <= covered) {
          out := out + [MandatoryRuleUnresolved];
        }
      }
    }
  }

  lemma UnknownScan(bundle: Bundle, o: RE.Obligation, scanned: set<TableId>, where: set<ColumnId>, having: set<ColumnId>)
    requires o.demand.condition.None? && TENANT_RULE <= o.rule && !(scanned <= bundle.tables.Keys)
    ensures !ObligationShown(bundle, o, scanned, where, having)
  {
    var t :| t in scanned && t !in bundle.tables;
  }

  lemma KnownScans(bundle: Bundle, o: RE.Obligation, scanned: set<TableId>, where: set<ColumnId>, having: set<ColumnId>)
    requires o.demand.condition.None? && TENANT_RULE <= o.rule && scanned <= bundle.tables.Keys
    ensures ObligationShown(bundle, o, scanned, where, having) <==>
              (set t | t in scanned && TENANT_TAG in bundle.tables[t].tags) <=
              (set c | c in where && IsTenantKey(bundle, c) :: c.table)
  {
    var needs := set t | t in scanned && TENANT_TAG in bundle.tables[t].tags;
    var covered := set c | c in where && IsTenantKey(bundle, c) :: c.table;
    if needs <= covered {
      forall t | t in scanned && TENANT_TAG in bundle.tables[t].tags
        ensures exists c :: c in where && c.table == t && IsTenantKey(bundle, c)
      {
        assert t in needs && t in covered;
      }
    }
  }

  method GateGrain(x: Inputs) returns (out: seq<ReasonCode>)
    ensures out == [] <==> Elements(x.plan.contract.grain) == Elements(x.logical.outputGrain)
  {
    out := if Elements(x.plan.contract.grain) != Elements(x.logical.outputGrain) then [ValidationFailed] else [];
  }

  method GateGroupBy(x: Inputs) returns (out: seq<ReasonCode>)
    ensures out == [] <==> Plainly(x.s.projections) == |x.s.group|
  {
    var plain := 0;
    var ps := x.s.projections;
    assert ps[0..] == ps;
    for i := 0 to |ps|
      invariant Plainly(ps) == plain + Plainly(ps[i..])
    {
      assert ps[i..][1..] == ps[i + 1..];
      if !ps[i].expr.Measured? {
        plain := plain + 1;
      }
    }
    out := if plain != |x.s.group| then [ValidationFailed] else [];
  }

  method GateTime(bundle: Bundle, x: Inputs) returns (out: seq<ReasonCode>)
    ensures out == [] <==> TimeDeclared(bundle, x.plan.time)
  {
    out := [];
    if x.plan.time.Some? {
      var time := x.plan.time.value;
      if Compare(Lt, time.start, time.endExclusive) != Yes {
        out := out + [ValidationFailed];
      }
      if time.column !in bundle.columns || !bundle.columns[time.column].hasTimeRole {
        out := out + [ValidationFailed];
      }
    }
  }

  method GateFanOut(x: Inputs) returns (out: seq<ReasonCode>)
    ensures out == [] <==> (Additive(x.plan) ==> forall j :: j in x.logical.joins ==> j.preservesLeft)
    ensures forall code :: code in out ==> code == FanOutUnproven
  {
    out := [];
    if Additive(x.plan) {
      var joins := x.logical.joins;
      for i := 0 to |joins|
        invariant out == [] <==> forall n :: 0 <= n < i ==> joins[n].preservesLeft
        invariant forall code :: code in out ==> code == FanOutUnproven
      {
        if !joins[i].preservesLeft {
          out := out + [FanOutUnproven];
        }
      }
    }
  }

  /** All gates run, whatever the earlier ones find. */
  method Validate(bundle: Bundle, scope: Scope, x: Inputs) returns (findings: seq<ReasonCode>)
    requires PhysicalUnique(bundle)
    ensures findings == [] <==> Accepts(bundle, scope, x)
  {
    hide ColumnsDeclared, TableDeclared, JoinApproved, OnComplete, DistinctDeclared, ReferencesAllowed, MetricsIntact, ObligationShown,
      TimeDeclared, Additive, StatementNodes, SqlAliases;
    var aliases := SqlAliases(bundle, Refs(x.s));
    var a := GateAllowedNodes(x);
    var b := GateParameters(x);
    var c := GateTables(bundle, x);
    var d := GateColumns(bundle, x);
    var e := GateJoinsApproved(bundle, scope, x);
    var f := GateJoinPredicates(bundle, scope, x);
    var g := GateAggregates(x);
    var h := GateAuthorization(scope, x);
    var i := GateMetricIntegrity(bundle, x);
    var j := GateObligations(bundle, x, ColumnsInAll(x.logical.where), ColumnsInAll(x.logical.having));
    var k := GateObligations(bundle, x, Resolved(aliases, ClauseText(x.s.where)), Resolved(aliases, ClauseText(x.s.having)));
    var l := GateGrain(x);
    var m := GateGroupBy(x);
    var n := GateTime(bundle, x);
    var o := GateFanOut(x);
    findings := a + b + c + d + e + f + g + h + i + j + k + l + m + n + o;
  }
}
