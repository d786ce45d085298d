/**
  What a logical plan asks for: its own joins, filters, grouping and measures over rows keyed
  by table, with parameters taken by name. Nothing here mentions SQL text.
*/
module PlanMeaning {
  import opened Errors
  import opened Values
  import opened Expressions
  import opened Catalog
  import opened Plans
  import opened Relational
  import opened SqlQuery
  import opened Emissions

  function Holds(ps: seq<Predicate>, names: Names): Tuple<TableId> -> bool {
    t => DenoteAll(ps, names, t) == Yes
  }

  function JoinRows(joins: seq<Join>, names: Names, db: Database, ts: seq<Tuple<TableId>>): seq<Tuple<TableId>> {
    if joins == [] then ts
    else
      var j := joins[0];
      JoinRows(joins[1..], names, db,
               JoinAll(Holds(j.predicates, names), ts, j.right.table, RowsOf(db, j.right.physical), j.joinType.LeftOuter?))
  }

  /** The joined and filtered rows. */
  function SourceRows(plan: LogicalPlan, names: Names, db: Database): seq<Tuple<TableId>> {
    Filter(JoinRows(plan.joins, names, db, ScanRows(plan.base.table, RowsOf(db, plan.base.physical))),
           Holds(plan.where, names))
  }

  function ReportingZone(zone: string): string {
    if UtcZone(zone) then "UTC" else zone
  }

  function BucketKey(plan: LogicalPlan, engine: Engine, t: Tuple<TableId>): Key {
    match plan.timeBucket
    case None => []
    case Some(b) => [engine.bucket(b.grain, ReportingZone(b.zone), Field(t, b.column.table, b.column.name))]
  }

  function DimensionKey(gs: seq<(string, Option<ColumnId>)>, t: Tuple<TableId>): Key {
    if gs == [] then []
    else (match gs[0].1 case None => [] case Some(c) => [Field(t, c.table, c.name)]) + DimensionKey(gs[1..], t)
  }

  function PlanKey(plan: LogicalPlan, engine: Engine): Tuple<TableId> -> Key {
    t => BucketKey(plan, engine, t) + DimensionKey(plan.groupBy, t)
  }

  predicate HasDimension(gs: seq<(string, Option<ColumnId>)>) {
    gs != [] && (gs[0].1.Some? || HasDimension(gs[1..]))
  }

  predicate Grouped(plan: LogicalPlan) {
    plan.timeBucket.Some? || HasDimension(plan.groupBy)
  }

  function FieldOver(c: ColumnId, ts: seq<Tuple<TableId>>): (vs: seq<Value>)
    ensures |vs| == |ts|
  {
    if ts == [] then [] else [Field(ts[0], c.table, c.name)] + FieldOver(c, ts[1..])
  }

  /** A measure's contract: a value, or a refusal when a zero denominator must be an error. */
  datatype Answer = Gives(v: Value) | Refuses

  function ContractMeasure(m: Measure, engine: Engine, ts: seq<Tuple<TableId>>): Answer {
    match m
    case Aggregate(op, None) => Gives(if op.Count? then Number(|ts| as real) else Null)
    case Aggregate(op, Some(c)) => Gives(Aggregated(op, FieldOver(c, ts)))
    case Ratio(n, d, policy) =>
      var num, den := ContractMeasure(n, engine, ts), ContractMeasure(d, engine, ts);
      if num.Refuses? || den.Refuses? then Refuses
      else if den.v == Number(0.0) then
        match policy
        case NullOnZero => Gives(Null)
        case ZeroOnZero => Gives(Number(0.0))
        case ErrorOnZero => Refuses
      else Gives(Divide(engine, num.v, den.v))
  }

  /** Measures whose policy the compiler implements for every group. */
  predicate PolicyKept(m: Measure) {
    m.Ratio? ==> m.policy.NullOnZero? && PolicyKept(m.numerator) && PolicyKept(m.denominator)
  }

  function MeasureValues(ms: seq<(string, Measure)>, engine: Engine, ts: seq<Tuple<TableId>>): (vs: seq<Value>)
    ensures |vs| == |ms|
  {
    if ms == [] then []
    else
      var a := ContractMeasure(ms[0].1, engine, ts);
      [if a.Gives? then a.v else Null] + MeasureValues(ms[1..], engine, ts)
  }

  /** One output row per kept group: its key, then its measures, in contract order. */
  function GroupRows(plan: LogicalPlan, names: Names, engine: Engine, ts: seq<Tuple<TableId>>, ks: seq<Key>, groups: seq<Key>)
    : seq<seq<Value>>
    requires |ts| == |ks|
  {
    if groups == [] then []
    else
      var members := GroupMembers(Grouped(plan), ts, ks, groups[0]);
      (if Holds(plan.having, names)(Representative(members))
       then [groups[0] + MeasureValues(plan.measures, engine, members)] else [])
        + GroupRows(plan, names, engine, ts, ks, groups[1..])
  }

  /** The rows the plan asks for, before its order and limit arrange them. */
  function PlanRows(plan: LogicalPlan, names: Names, engine: Engine, db: Database): seq<seq<Value>> {
    var ts := SourceRows(plan, names, db);
    var ks := KeysOf(ts, PlanKey(plan, engine));
    GroupRows(plan, names, engine, ts, ks, GroupKeys(Grouped(plan), ks))
  }

  // -- what the emitted quotients compute ----------------------------------------------------------

  /** Plain division, with a NULL divisor in place of zero under the NULL policy. */
  function Served(m: Measure, engine: Engine, ts: seq<Tuple<TableId>>): Value {
    match m
    case Aggregate(op, None) => if op.Count? then Number(|ts| as real) else Null
    case Aggregate(op, Some(c)) => Aggregated(op, FieldOver(c, ts))
    case Ratio(n, d, policy) =>
      var b := Served(d, engine, ts);
      Divide(engine, Served(n, engine, ts), if policy.NullOnZero? && b == Number(0.0) then Null else b)
  }

  /** The measure that the text denotes: a divisor that is a bare ratio joins the dividend's chain. */
  function LeftGrouped(m: Measure): Measure
    decreases m, 0
  {
    match m
    case Aggregate(_, _) => m
    case Ratio(n, d, policy) =>
      if policy.NullOnZero? then Ratio(LeftGrouped(n), LeftGrouped(d), policy) else GraftRatio(LeftGrouped(n), d, policy)
  }

  function GraftRatio(acc: Measure, d: Measure, policy: ZeroPolicy): Measure
    decreases d, 1
  {
    match d
    case Aggregate(_, _) => Ratio(acc, d, policy)
    case Ratio(n', d', policy') =>
      var longer := GraftRatio(acc, n', policy);
      if policy'.NullOnZero? then Ratio(longer, LeftGrouped(d'), policy') else GraftRatio(longer, d', policy')
  }

  /** No divisor is a ratio outside the NULL policy's guard. */
  predicate NoBareDivisor(m: Measure) {
    m.Ratio? ==> NoBareDivisor(m.numerator) && NoBareDivisor(m.denominator) && (m.policy.NullOnZero? || m.denominator.Aggregate?)
  }

  function ServedValues(ms: seq<(string, Measure)>, engine: Engine, ts: seq<Tuple<TableId>>): (vs: seq<Value>)
    ensures |vs| == |ms|
  {
    if ms == [] then [] else [Served(LeftGrouped(ms[0].1), engine, ts)] + ServedValues(ms[1..], engine, ts)
  }

  function ServedGroups(plan: LogicalPlan, names: Names, engine: Engine, ts: seq<Tuple<TableId>>, ks: seq<Key>, groups: seq<Key>)
    : seq<seq<Value>>
    requires |ts| == |ks|
  {
    if groups == [] then []
    else
      var members := GroupMembers(Grouped(plan), ts, ks, groups[0]);
      (if Holds(plan.having, names)(Representative(members))
       then [groups[0] + ServedValues(plan.measures, engine, members)] else [])
        + ServedGroups(plan, names, engine, ts, ks, groups[1..])
  }

  /** The rows the statement answers with, whatever its measures' policies. */
  function ServedRows(plan: LogicalPlan, names: Names, engine: Engine, db: Database): seq<seq<Value>> {
    var ts := SourceRows(plan, names, db);
    var ks := KeysOf(ts, PlanKey(plan, engine));
    ServedGroups(plan, names, engine, ts, ks, GroupKeys(Grouped(plan), ks))
  }
}
