/** The emitted SELECT statement and its evaluation over a physical database. */
module SqlQuery {
  import opened Errors
  import opened Values
  import opened Expressions
  import opened Catalog
  import opened SqlTree
  import opened Plans
  import opened Relational
  import opened SqlText
  import opened Quotients

  datatype OutExpr =
    | Plain(s: Scalar)
    | DateTrunc(grain: Grain, zone: Option<string>, s: Scalar)
    | Measured(m: SqlMeasure)

  datatype Projection = Projection(expr: OutExpr, alias: string)

  datatype TableRef = TableRef(physical: string, alias: Alias)

  datatype SqlJoin = SqlJoin(table: TableRef, on: Cond, joinType: JoinType)

  datatype Select = Select(
    projections: seq<Projection>,
    from: TableRef,
    joins: seq<SqlJoin>,
    where: Option<Cond>,
    group: seq<OutExpr>,
    having: Option<Cond>,
    order: seq<SortKey>,
    limit: Option<nat>)

  /** A physical table's rows; an engine's calendar, its own reading of division by zero and what it calls NaN. */
  type Database = map<string, seq<Row>>

  datatype Engine = Engine(bucket: (Grain, string, Value) -> Value, divideByZero: Value -> Value, isNaN: Value -> bool)

  function RowsOf(db: Database, physical: string): seq<Row> {
    if physical in db then db[physical] else []
  }

  // -- arithmetic on aggregates ------------------------------------------------------

  function Divide(engine: Engine, a: Value, b: Value): Value {
    if !a.Number? || !b.Number? then Null
    else if b.n == 0.0 then engine.divideByZero(a)
    else Number(a.n / b.n)
  }

  /** The values of one column over the rows of a group. */
  function ColumnOver(s: Scalar, ts: seq<Tuple<Alias>>): (vs: seq<Value>)
    ensures |vs| == |ts|
  {
    if ts == [] then [] else [ScalarValue(s, [], 0, ts[0])] + ColumnOver(s, ts[1..])
  }

  function EvalMeasure(engine: Engine, m: SqlMeasure, ts: seq<Tuple<Alias>>): Value {
    match m
    case SqlAggregate(fn, distinct, None) => if fn.Count? && !distinct then Number(|ts| as real) else Null
    case SqlAggregate(fn, distinct, Some(s)) =>
      Aggregated(if fn.Count? && distinct then CountDistinct else fn, ColumnOver(s, ts))
    case SqlDiv(l, r) => Divide(engine, EvalMeasure(engine, l, ts), EvalMeasure(engine, r, ts))
    case SqlNullIfZero(a) =>
      var v := EvalMeasure(engine, a, ts); if v == Number(0.0) then Null else v
  }

  // -- the statement -------------------------------------------------------------------

  function EvalKey(engine: Engine, e: OutExpr, t: Tuple<Alias>): Value {
    match e
    case Plain(s) => ScalarValue(s, [], 0, t)
    case DateTrunc(g, zone, s) =>
      engine.bucket(g, if zone.Some? then zone.value else "UTC", ScalarValue(s, [], 0, t))
    case Measured(_) => Null
  }

  function EvalKeys(engine: Engine, es: seq<OutExpr>, t: Tuple<Alias>): (k: Key)
    ensures |k| == |es|
    ensures forall i :: 0 <= i < |es| ==> k[i] == EvalKey(engine, es[i], t)
  {
    if es == [] then [] else [EvalKey(engine, es[0], t)] + EvalKeys(engine, es[1..], t)
  }

  function GroupKeyOf(engine: Engine, es: seq<OutExpr>): Tuple<Alias> -> Key {
    t => EvalKeys(engine, es, t)
  }

  /** The row that stands for a group where an expression is not aggregated. */
  function Representative<K>(ts: seq<Tuple<K>>): Tuple<K> {
    if ts == [] then map[] else ts[0]
  }

  function EvalProjections(engine: Engine, ps: seq<Projection>, ts: seq<Tuple<Alias>>): (row: seq<Value>)
    ensures |row| == |ps|
  {
    if ps == [] then []
    else
      var v := if ps[0].expr.Measured? then EvalMeasure(engine, ps[0].expr.m, ts)
               else EvalKey(engine, ps[0].expr, Representative(ts));
      [v] + EvalProjections(engine, ps[1..], ts)
  }

  function SqlHolds(c: Cond, vals: seq<Value>, at: nat): Tuple<Alias> -> bool {
    t => Eval(c, vals, at, t) == Yes
  }

  function CondHoles(c: Option<Cond>): nat {
    if c.None? then 0 else Holes(c.value)
  }

  function JoinHoles(joins: seq<SqlJoin>): nat {
    if joins == [] then 0 else Holes(joins[0].on) + JoinHoles(joins[1..])
  }

  function StatementHoles(s: Select): nat {
    JoinHoles(s.joins) + CondHoles(s.where) + CondHoles(s.having)
  }

  function EvalJoins(joins: seq<SqlJoin>, vals: seq<Value>, at: nat, db: Database, ts: seq<Tuple<Alias>>)
    : seq<Tuple<Alias>>
  {
    if joins == [] then ts
    else
      var j := joins[0];
      EvalJoins(joins[1..], vals, at + Holes(j.on), db,
                JoinAll(SqlHolds(j.on, vals, at), ts, j.table.alias, RowsOf(db, j.table.physical), j.joinType.LeftOuter?))
  }

  function EvalWhere(c: Option<Cond>, vals: seq<Value>, at: nat, ts: seq<Tuple<Alias>>): seq<Tuple<Alias>> {
    if c.None? then ts else Filter(ts, SqlHolds(c.value, vals, at))
  }

  /** The rows that reach grouping. */
  function EvalSource(s: Select, vals: seq<Value>, db: Database): seq<Tuple<Alias>> {
    EvalWhere(s.where, vals, JoinHoles(s.joins),
              EvalJoins(s.joins, vals, 0, db, ScanRows(s.from.alias, RowsOf(db, s.from.physical))))
  }

  function EvalGroups(engine: Engine, s: Select, vals: seq<Value>, ts: seq<Tuple<Alias>>, ks: seq<Key>, groups: seq<Key>)
    : seq<seq<Value>>
    requires |ts| == |ks|
  {
    if groups == [] then []
    else
      var members := GroupMembers(s.group != [], ts, ks, groups[0]);
      var kept := s.having.None?
        || SqlHolds(s.having.value, vals, JoinHoles(s.joins) + CondHoles(s.where))(Representative(members));
      (if kept then [EvalProjections(engine, s.projections, members)] else [])
        + EvalGroups(engine, s, vals, ts, ks, groups[1..])
  }

  /** The rows of the statement before ORDER BY and LIMIT arrange them. */
  function EvalSelect(engine: Engine, s: Select, vals: seq<Value>, db: Database): seq<seq<Value>> {
    var ts := EvalSource(s, vals, db);
    var ks := KeysOf(ts, GroupKeyOf(engine, s.group));
    EvalGroups(engine, s, vals, ts, ks, GroupKeys(s.group != [], ks))
  }

  /** ORDER BY arranges the rows; which arrangement it is depends on the engine's collation. */
  predicate Arranges(arranged: seq<seq<Value>>, rows: seq<seq<Value>>) {
    multiset(arranged) == multiset(rows)
  }

  /** The arranged rows that LIMIT keeps. */
  function Delivered(limit: Option<nat>, arranged: seq<seq<Value>>): seq<seq<Value>> {
    if limit.Some? && limit.value < |arranged| then arranged[..limit.value] else arranged
  }

  /** The arranged rows that LIMIT cuts. */
  function Cut(limit: Option<nat>, arranged: seq<seq<Value>>): seq<seq<Value>> {
    if limit.Some? && limit.value < |arranged| then arranged[limit.value..] else []
  }

  // -- reading the statement back from its text ---------------------------------------------

  /** The tree a condition's text parses to; text left over is a defect. */
  function ReadBack(c: Cond): Outcome<Cond> {
    var p := ParseOr(Print(c));
    if p.Read? && p.rest == [] then Ok(p.cond) else Raise(CompilerDefect)
  }

  function ReadBackOptional(c: Option<Cond>): Outcome<Option<Cond>> {
    if c.None? then Ok(None) else var r :- ReadBack(c.value); Ok(Some(r))
  }

  function ReadBackJoins(joins: seq<SqlJoin>): Outcome<seq<SqlJoin>> {
    if joins == [] then Ok([])
    else
      var on :- ReadBack(joins[0].on);
      var rest :- ReadBackJoins(joins[1..]);
      Ok([joins[0].(on := on)] + rest)
  }

  /** The tree a measure's text parses to. */
  function ReadBackMeasure(m: SqlMeasure): Outcome<SqlMeasure> {
    var p := ParseQuotient(PrintMeasure(m));
    if p.ReadMeasure? && p.rest == [] then Ok(p.measure) else Raise(CompilerDefect)
  }

  function ReadBackProjections(ps: seq<Projection>): Outcome<seq<Projection>> {
    if ps == [] then Ok([])
    else
      var rest :- ReadBackProjections(ps[1..]);
      if ps[0].expr.Measured? then
        var m :- ReadBackMeasure(ps[0].expr.m);
        Ok([Projection(Measured(m), ps[0].alias)] + rest)
      else Ok([ps[0]] + rest)
  }

  /** The statement that parsing the emitted text yields; conditions and measures can change shape. */
  function Reparse(s: Select): Outcome<Select> {
    var projections :- ReadBackProjections(s.projections);
    var joins :- ReadBackJoins(s.joins);
    var where :- ReadBackOptional(s.where);
    var having :- ReadBackOptional(s.having);
    Ok(s.(projections := projections, joins := joins, where := where, having := having))
  }

  /** The projections with their measures grouped to the left, as the text has them. */
  function RegroupProjections(ps: seq<Projection>): (rs: seq<Projection>)
    ensures |rs| == |ps|
    ensures forall i :: 0 <= i < |ps| ==>
              rs[i] == if ps[i].expr.Measured? then Projection(Measured(RegroupMeasure(ps[i].expr.m)), ps[i].alias) else ps[i]
  {
    if ps == [] then []
    else
      var p := ps[0];
      [if p.expr.Measured? then Projection(Measured(RegroupMeasure(p.expr.m)), p.alias) else p] + RegroupProjections(ps[1..])
  }

  lemma {:induction false} ProjectionsReadBack(ps: seq<Projection>)
    ensures ReadBackProjections(ps) == Ok(RegroupProjections(ps))
  {
    if ps != [] {
      ProjectionsReadBack(ps[1..]);
      if ps[0].expr.Measured? {
        MeasureReadsBack(ps[0].expr.m);
      }
    }
  }
}
