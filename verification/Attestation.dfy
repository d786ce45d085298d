/**
  The uniqueness attestation: for a join that declares a uniqueness contract, a diagnostic
  query counts, per base fact, how many rows of the joined table match it.
*/
module Attestations {
  import opened Errors
  import opened Values
  import opened Expressions
  import opened Catalog
  import opened SqlTree
  import opened Plans
  import opened SqlQuery
  import opened Emissions
  import opened Lowering
  import opened Compiler

  datatype Attestation = Attestation(relationship: string, inner: Select, values: seq<Value>)

  // -- which facts, which columns ------------------------------------------------------------------

  function GrainOf(t: Table): seq<ColumnId> {
    if t.grain != [] then t.grain else t.primaryKey
  }

  /** The first column that cannot be NULL, so that an unmatched fact counts zero. */
  function Probe(columns: map<ColumnId, ColumnRecord>, cs: seq<ColumnId>): Outcome<ColumnId> {
    if cs == [] then Raise(Uncaught)
    else if cs[0] !in columns then Raise(ObjectNotFound)
    else if !columns[cs[0]].nullable then Ok(cs[0])
    else Probe(columns, cs[1..])
  }

  /** The prefix test: the column's identifier starts with the table's and a dot. */
  predicate StartsWith(table: TableId, c: ColumnId) {
    table + "." <= c.table + "." + c.name
  }

  predicate FactSide(table: TableId, p: Predicate) {
    ColumnsIn(p) != {} && forall c :: c in ColumnsIn(p) ==> StartsWith(table, c)
  }

  /** The conditions on the base table alone: the metric's population and time window. */
  function FactOnly(table: TableId, ps: seq<Predicate>): (out: seq<Predicate>)
    ensures forall p :: p in out <==> p in ps && FactSide(table, p)
  {
    if ps == [] then []
    else (if FactSide(table, ps[0]) then [ps[0]] else []) + FactOnly(table, ps[1..])
  }

  // -- the diagnostic query --------------------------------------------------------------------------

  function Keyed(cs: seq<ColumnId>): (gs: seq<(string, Option<ColumnId>)>)
    ensures |gs| == |cs| && forall i :: 0 <= i < |cs| ==> gs[i] == (cs[i].name, Some(cs[i]))
  {
    if cs == [] then [] else [(cs[0].name, Some(cs[0]))] + Keyed(cs[1..])
  }

  /** One row per fact: its grain and the number of rows its LEFT JOIN found. */
  function Diagnostic(plan: LogicalPlan, join: Join, grain: seq<ColumnId>, probe: ColumnId): LogicalPlan {
    LogicalPlan(plan.base, [join.(joinType := LeftOuter)], FactOnly(plan.base.table, plan.where), Keyed(grain), None,
                [("match_count", Aggregate(Count, Some(probe)))], [], [], None, [])
  }

  function AttestEnv(bundle: Bundle, plan: LogicalPlan, scope: Scope, parameters: map<string, Value>): Env {
    Env(AliasMap(Scans(plan)), Names(parameters["p_tenant" := scope.tenant], bundle.enums), bundle.columns)
  }

  function AttestationOf(bundle: Bundle, plan: LogicalPlan, join: Join, scope: Scope, parameters: map<string, Value>)
    : Outcome<Attestation>
    requires join.predicates != []
  {
    if plan.base.table !in bundle.tables || join.right.table !in bundle.tables then Raise(ObjectNotFound)
    else
      var probe :- Probe(bundle.columns, GrainOf(bundle.tables[join.right.table]));
      var query := Diagnostic(plan, join, GrainOf(bundle.tables[plan.base.table]), probe);
      var e :- EmitSelect(AttestEnv(bundle, plan, scope, parameters), query);
      Ok(Attestation(join.relationship, e.tree, BoundValues(e.bound)))
  }

  /** One attestation per join that declares a uniqueness contract. */
  function AttestationsOf(bundle: Bundle, plan: LogicalPlan, joins: seq<Join>, scope: Scope, parameters: map<string, Value>)
    : Outcome<seq<Attestation>>
    requires JoinsHavePredicates(joins)
  {
    if joins == [] then Ok([])
    else
      assert forall j :: j in joins[1..] ==> j in joins;
      match FindRelationship(bundle.relationships, joins[0].relationship)
      case None => Raise(ObjectNotFound)
      case Some(rel) =>
        if !rel.requiresUniqueness then AttestationsOf(bundle, plan, joins[1..], scope, parameters)
        else
          var first :- AttestationOf(bundle, plan, joins[0], scope, parameters);
          var rest :- AttestationsOf(bundle, plan, joins[1..], scope, parameters);
          Ok([first] + rest)
  }

  // -- building it ----------------------------------------------------------------------------------------

  method FindProbe(bundle: Bundle, cs: seq<ColumnId>) returns (r: Outcome<ColumnId>)
    ensures r == Probe(bundle.columns, cs)
  {
    assert cs[0..] == cs;
    for i := 0 to |cs|
      invariant Probe(bundle.columns, cs) == Probe(bundle.columns, cs[i..])
    {
      assert cs[i..][1..] == cs[i + 1..];
      if cs[i] !in bundle.columns {
        return Raise(ObjectNotFound);
      }
      if !bundle.columns[cs[i]].nullable {
        return Ok(cs[i]);
      }
    }
    r := Raise(Uncaught);
  }

  method KeepFactOnly(table: TableId, ps: seq<Predicate>) returns (out: seq<Predicate>)
    ensures out == FactOnly(table, ps)
  {
    out := [];
    assert ps[0..] == ps;
    for i := 0 to |ps|
      invariant FactOnly(table, ps) == out + FactOnly(table, ps[i..])
    {
      assert ps[i..][1..] == ps[i + 1..];
      if FactSide(table, ps[i]) {
        assert out + ([ps[i]] + FactOnly(table, ps[i + 1..])) == (out + [ps[i]]) + FactOnly(table, ps[i + 1..]);
        out := out + [ps[i]];
      } else {
        assert [] + FactOnly(table, ps[i + 1..]) == FactOnly(table, ps[i + 1..]);
      }
    }
  }

  method Build(bundle: Bundle, plan: LogicalPlan, join: Join, scope: Scope, parameters: map<string, Value>)
    returns (r: Outcome<Attestation>)
    requires join.predicates != []
    ensures r == AttestationOf(bundle, plan, join, scope, parameters)
  {
    var binder := new ParamBinder();
    var aliasOf := BuildAliases(plan);
    var env := Env(aliasOf, Names(parameters["p_tenant" := scope.tenant], bundle.enums), bundle.columns);
    var ctx := new Ctx(env, binder);
    if plan.base.table !in bundle.tables || join.right.table !in bundle.tables {
      return Raise(ObjectNotFound);
    }
    var grain := GrainOf(bundle.tables[plan.base.table]);
    var probe :- FindProbe(bundle, GrainOf(bundle.tables[join.right.table]));
    var where := KeepFactOnly(plan.base.table, plan.where);
    var query := Diagnostic(plan, join, grain, probe);
    var output :- Output(ctx, query);
    var conditions :- Sources(ctx, query.(where := where));
    ghost var e := EmitSelect(env, query).value;
    assert binder.Contents() == [] + e.bound == e.bound;
    r := Ok(Attestation(join.relationship, Statement(query, output, conditions), binder.values));
  }

  method BuildAttestations(bundle: Bundle, plan: LogicalPlan, scope: Scope, parameters: map<string, Value>)
    returns (r: Outcome<seq<Attestation>>)
    requires JoinsHavePredicates(plan.joins)
    ensures r == AttestationsOf(bundle, plan, plan.joins, scope, parameters)
  {
    var out: seq<Attestation> := [];
    var joins := plan.joins;
    assert joins[0..] == joins;
    ThenStart(AttestationsOf(bundle, plan, joins, scope, parameters));
    for i := 0 to |joins|
      invariant AttestationsOf(bundle, plan, joins, scope, parameters)
             == Then(out, AttestationsOf(bundle, plan, joins[i..], scope, parameters))
    {
      assert joins[i..][1..] == joins[i + 1..];
      match FindRelationship(bundle.relationships, joins[i].relationship) {
        case None => return Raise(ObjectNotFound);
        case Some(rel) =>
          if rel.requiresUniqueness {
            var a :- Build(bundle, plan, joins[i], scope, parameters);
            ThenStep(out, a, AttestationsOf(bundle, plan, joins[i + 1..], scope, parameters));
            out := out + [a];
          }
      }
    }
    ThenEnd(out);
    r := Ok(out);
  }

  // -- its totals and what they are checked for ----------------------------------------------------------------

  datatype Totals = Totals(facts: int, overlapping: int, unmatched: int)

  function MatchCount(row: seq<Value>): Value {
    if row == [] then Null else row[|row| - 1]
  }

  /** CASE WHEN match_count <op> n THEN 1 ELSE 0 END over the rows of the inner query. */
  function Flags(rows: seq<seq<Value>>, op: CompareOp, n: real): seq<Value> {
    if rows == [] then []
    else [Number(if Compare(op, MatchCount(rows[0]), Number(n)) == Yes then 1.0 else 0.0)] + Flags(rows[1..], op, n)
  }

  /** SUM over no rows is NULL, which the gateway reads as zero. */
  function Whole(v: Value): int {
    if v.Number? then v.n.Floor else 0
  }

  function TotalsOf(rows: seq<seq<Value>>): Totals {
    Totals(|rows|, Whole(Aggregated(Sum, Flags(rows, Gt, 1.0))), Whole(Aggregated(Sum, Flags(rows, Eq, 0.0))))
  }

  /** Running an attestation: the inner query as parsed from its text, then the outer totals. */
  function RunAttestation(engine: Engine, a: Attestation, db: Database): Outcome<Totals> {
    var read :- Reparse(a.inner);
    Ok(TotalsOf(EvalSelect(engine, read, a.values, db)))
  }

  /** The attestation completes on the data and raises no finding. */
  predicate AttestationPasses(engine: Engine, db: Database, a: Attestation) {
    RunAttestation(engine, a, db).Ok? && Check(RunAttestation(engine, a, db).value) == None
  }

  /** Overlap is reported before a gap. */
  function Check(t: Totals): (finding: Option<ReasonCode>)
    ensures finding == None <==> t.overlapping == 0 && t.unmatched == 0
  {
    if t.overlapping != 0 then Some(FanOutUnproven)
    else if t.unmatched != 0 then Some(ResultContractBreach)
    else None
  }
}
