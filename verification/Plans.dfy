/** The logical plan, the only input of the compiler. */
module Plans {
  import opened Errors
  import opened Values
  import opened Expressions
  import opened Catalog
  import opened SqlTree

  datatype SortKey = SortKey(field: string, descending: bool)

  datatype Scan = Scan(table: TableId, physical: string, alias: Alias)

  datatype Join = Join(
    relationship: string,
    leftAlias: Alias,
    rightAlias: Alias,
    right: Scan,
    joinType: JoinType,
    predicates: seq<Predicate>,
    cardinality: Cardinality,
    preservesLeft: bool)

  datatype TimeBucket = TimeBucket(alias: string, column: ColumnId, grain: Grain, zone: string)

  datatype LogicalPlan = LogicalPlan(
    base: Scan,
    joins: seq<Join>,
    where: seq<Predicate>,
    groupBy: seq<(string, Option<ColumnId>)>,
    timeBucket: Option<TimeBucket>,
    measures: seq<(string, Measure)>,
    having: seq<Predicate>,
    orderBy: seq<SortKey>,
    limit: Option<nat>,
    outputGrain: seq<string>)

  function Scans(plan: LogicalPlan): seq<Scan> {
    [plan.base] + JoinedScans(plan.joins)
  }

  function JoinedScans(joins: seq<Join>): (ss: seq<Scan>)
    ensures |ss| == |joins|
    ensures forall i :: 0 <= i < |joins| ==> ss[i] == joins[i].right
  {
    if joins == [] then [] else [joins[0].right] + JoinedScans(joins[1..])
  }

  /** Each table is scanned once and under its own alias. */
  predicate DistinctScans(scans: seq<Scan>) {
    forall i, j :: 0 <= i < j < |scans| ==>
      scans[i].table != scans[j].table && scans[i].alias != scans[j].alias
  }
}
