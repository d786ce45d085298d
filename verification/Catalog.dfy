/** Catalog records, the published bundle and the trusted scope. */
module Catalog {
  import opened Errors
  import opened Values
  import opened Expressions

  datatype Cardinality = OneToOne | ManyToOne | OneToMany | ManyToMany

  datatype JoinType = Inner | LeftOuter

  /** The operators of an approved join predicate; any other text is kept as Unlisted. */
  datatype JoinOperator = On(op: CompareOp) | LtOrNull | Unlisted(text: string)

  datatype JoinPredicate = JoinPredicate(op: JoinOperator, left: ColumnId, right: ColumnId)

  datatype Relationship = Relationship(
    ref: string,
    leftTable: TableId,
    rightTable: TableId,
    predicates: seq<JoinPredicate>,
    cardinality: Cardinality,
    joinType: JoinType,
    requiresUniqueness: bool,
    prohibitedUsages: seq<string>)

  datatype ColumnRecord = ColumnRecord(name: string, nullable: bool, isTenantKey: bool, hasTimeRole: bool)

  datatype Table = Table(
    id: TableId,
    physical: string,
    grain: seq<ColumnId>,
    primaryKey: seq<ColumnId>,
    tenantKey: Option<ColumnId>,
    certified: bool,
    tags: set<string>)

  datatype Grain = Day | Week | Month | Quarter | Year

  datatype Metric = Metric(
    ref: string,
    name: string,
    baseTable: TableId,
    baseEntity: string,
    expression: Measure,
    population: Option<Predicate>,
    requiredRules: seq<string>,
    timeColumn: ColumnId,
    grains: seq<Grain>,
    unit: Option<string>,
    allowedDimensions: seq<string>)

  datatype Dimension = Dimension(ref: string, column: ColumnId, relationship: Option<string>)

  // -- rules -------------------------------------------------------------------

  datatype Activation =
    | Always
    | ScanTagged(tag: string)
    | ContainsEntity(entity: string)
    | UsesTable(table: TableId)
    | UsesColumn(column: ColumnId)
    | UsesMetric(metric: string)
    | SlotUnset(unset: string)

  datatype Placement = BeforeAggregation | AfterAggregation

  datatype RuleEffect =
    | RequirePopulationFilter(demand: Demand)
    | RequireTenantScope(demand: Demand)
    | SetSlot(slot: string, slotValue: Option<string>)
    | RequireSemijoin
    | PreferRelationship

  /** What a mandatory effect obliges and pulls in. */
  datatype Demand = Demand(
    condition: Option<Predicate>,
    placement: Placement,
    tables: seq<TableId>,
    relationship: Option<string>)

  datatype Rule = Rule(ref: string, precedence: (nat, nat), activation: Activation, effect: RuleEffect)

  // -- the bundle ----------------------------------------------------------------

  datatype Bundle = Bundle(
    tables: map<TableId, Table>,
    columns: map<ColumnId, ColumnRecord>,
    relationships: seq<Relationship>,
    rules: seq<Rule>,
    metrics: map<string, Metric>,
    dimensions: map<string, Dimension>,
    enums: map<(string, string), string>)

  datatype Action = Discover | ReadData | UseInPredicate | ExecuteMetric

  datatype Resource = TableResource(t: TableId) | ColumnResource(c: ColumnId) | ObjectResource(id: string)

  /** The policy decision is an arbitrary set of permitted (action, resource) pairs. */
  datatype Scope = Scope(tenant: Value, allowed: set<(Action, Resource)>)

  predicate ColumnsUsable(scope: Scope, cs: set<ColumnId>, action: Action) {
    forall c :: c in cs ==> (action, ColumnResource(c)) in scope.allowed
  }

  function GetTable(bundle: Bundle, t: TableId, scope: Scope): Outcome<Table> {
    if t !in bundle.tables then Raise(ObjectNotFound)
    else if (Discover, TableResource(t)) !in scope.allowed then Raise(NotAuthorized)
    else Ok(bundle.tables[t])
  }

  /** The record of a pinned reference, if the bundle publishes it. */
  function FindRelationship(rels: seq<Relationship>, ref: string): Option<Relationship> {
    if rels == [] then None
    else if rels[0].ref == ref then Some(rels[0])
    else FindRelationship(rels[1..], ref)
  }

  function GetRelationship(bundle: Bundle, ref: string, scope: Scope): Outcome<Relationship> {
    match FindRelationship(bundle.relationships, ref)
    case None => Raise(ObjectNotFound)
    case Some(rel) =>
      if (Discover, TableResource(rel.leftTable)) !in scope.allowed
         || (Discover, TableResource(rel.rightTable)) !in scope.allowed
      then Raise(NotAuthorized)
      else Ok(rel)
  }

  function JoinKeys(ps: seq<JoinPredicate>): set<ColumnId> {
    if ps == [] then {} else {ps[0].left, ps[0].right} + JoinKeys(ps[1..])
  }

  // -- well-formedness, as publication and the contracts establish it ------------------

  predicate RelationshipWellFormed(rel: Relationship) {
    && rel.predicates != []
    && (forall p :: p in rel.predicates ==>
          && p.left.table in {rel.leftTable, rel.rightTable}
          && p.right.table in {rel.leftTable, rel.rightTable})
  }

  predicate DistinctRefs(rels: seq<Relationship>) {
    forall i, j :: 0 <= i < j < |rels| ==> rels[i].ref != rels[j].ref
  }

  /** No two tables share a physical name. */
  predicate PhysicalUnique(bundle: Bundle) {
    forall t, u | t in bundle.tables && u in bundle.tables && bundle.tables[t].physical == bundle.tables[u].physical :: t == u
  }

  predicate BundleWellFormed(bundle: Bundle) {
    && (forall t :: t in bundle.tables ==> bundle.tables[t].id == t)
    && PhysicalUnique(bundle)
    && (forall c :: c in bundle.columns ==> bundle.columns[c].name == c.name)
    && DistinctRefs(bundle.relationships)
    && (forall rel :: rel in bundle.relationships ==> RelationshipWellFormed(rel))
    && (forall t :: t in bundle.tables ==> TenantKeyWellFormed(bundle, bundle.tables[t]))
  }

  lemma NamesAreUnique(bundle: Bundle)
    requires BundleWellFormed(bundle)
    ensures PhysicalUnique(bundle)
  {
  }

  predicate TenantKeyWellFormed(bundle: Bundle, table: Table) {
    table.tenantKey.Some? ==>
      && table.tenantKey.value.table == table.id
      && table.tenantKey.value in bundle.columns
      && bundle.columns[table.tenantKey.value].isTenantKey
  }

  lemma {:induction false} FoundRelationship(rels: seq<Relationship>, ref: string)
    ensures match FindRelationship(rels, ref)
            case None => forall rel :: rel in rels ==> rel.ref != ref
            case Some(rel) => rel in rels && rel.ref == ref
  {
    if rels != [] {
      FoundRelationship(rels[1..], ref);
    }
  }

  lemma {:induction false} JoinKeysOf(ps: seq<JoinPredicate>)
    ensures forall c :: c in JoinKeys(ps) <==> exists p :: p in ps && (c == p.left || c == p.right)
  {
    if ps != [] {
      JoinKeysOf(ps[1..]);
      forall c
        ensures c in JoinKeys(ps) <==> exists p :: p in ps && (c == p.left || c == p.right)
      {
        if exists p :: p in ps && (c == p.left || c == p.right) {
          var p :| p in ps && (c == p.left || c == p.right);
          assert p == ps[0] || p in ps[1..];
        }
        if c in JoinKeys(ps[1..]) {
          var p :| p in ps[1..] && (c == p.left || c == p.right);
          assert p in ps;
        }
        if c in {ps[0].left, ps[0].right} {
          assert ps[0] in ps;
        }
      }
    }
  }
}
