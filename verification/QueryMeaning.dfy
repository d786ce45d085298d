/**
  The compiler preserves meaning. Part two: whole statements. The emitted SELECT, read back
  from its text and evaluated with the bound values in positional order, yields the rows the
  logical plan asks for.
*/
module QueryMeaning {
  import opened Errors
  import opened Values
  import opened Expressions
  import opened Catalog
  import opened SqlTree
  import opened SqlText
  import opened Quotients
  import opened SqlQuery
  import opened Plans
  import opened Relational
  import opened PlanMeaning
  import opened RatioMeaning
  import opened Emissions
  import opened CompilerMeaning

  // -- aliases ---------------------------------------------------------------------------

  predicate Injective(aliasOf: map<TableId, Alias>) {
    forall t, u | t in aliasOf && u in aliasOf && t != u :: aliasOf[t] != aliasOf[u]
  }

  lemma {:induction false} AliasMapHolds(scans: seq<Scan>, i: nat)
    requires DistinctScans(scans) && i < |scans|
    ensures scans[i].table in AliasMap(scans) && AliasMap(scans)[scans[i].table] == scans[i].alias
  {
    var n := |scans| - 1;
    if i < n {
      AliasMapHolds(scans[..n], i);
      assert scans[..n][i] == scans[i];
      assert scans[i].table != scans[n].table;
    }
  }

  lemma {:induction false} AliasMapKeys(scans: seq<Scan>, t: TableId)
    requires t in AliasMap(scans)
    ensures exists i :: 0 <= i < |scans| && scans[i].table == t
  {
    var n := |scans| - 1;
    if t != scans[n].table {
      AliasMapKeys(scans[..n], t);
      var i :| 0 <= i < n && scans[..n][i].table == t;
      assert scans[i].table == t;
    }
  }

  lemma AliasMapOf(scans: seq<Scan>)
    requires DistinctScans(scans)
    ensures forall t :: t in AliasMap(scans) <==> exists i :: 0 <= i < |scans| && scans[i].table == t
    ensures forall i :: 0 <= i < |scans| ==> scans[i].table in AliasMap(scans) && AliasMap(scans)[scans[i].table] == scans[i].alias
    ensures Injective(AliasMap(scans))
  {
    hide AliasMap;
    forall i | 0 <= i < |scans|
      ensures scans[i].table in AliasMap(scans) && AliasMap(scans)[scans[i].table] == scans[i].alias
    {
      AliasMapHolds(scans, i);
    }
    forall t
      ensures t in AliasMap(scans) ==> exists i :: 0 <= i < |scans| && scans[i].table == t
    {
      if t in AliasMap(scans) {
        AliasMapKeys(scans, t);
      }
    }
    forall t, u | t in AliasMap(scans) && u in AliasMap(scans) && t != u
      ensures AliasMap(scans)[t] != AliasMap(scans)[u]
    {
      var i :| 0 <= i < |scans| && scans[i].table == t;
      var j :| 0 <= j < |scans| && scans[j].table == u;
      assert i < j || j < i;
    }
  }

  // -- mirrored bags -------------------------------------------------------------------------

  predicate MirrorsAll(aliasOf: map<TableId, Alias>, ts: seq<Tuple<TableId>>, us: seq<Tuple<Alias>>) {
    |ts| == |us| && forall i :: 0 <= i < |ts| ==> Mirrors(aliasOf, ts[i], us[i])
  }

  /** Tests of mirrored tuples agree. */
  ghost predicate Agree(aliasOf: map<TableId, Alias>, p: Tuple<TableId> -> bool, q: Tuple<Alias> -> bool) {
    forall t, u | Mirrors(aliasOf, t, u) :: p(t) == q(u)
  }

  lemma MirrorsExtend(aliasOf: map<TableId, Alias>, t: Tuple<TableId>, u: Tuple<Alias>, table: TableId, row: Row)
    requires Injective(aliasOf) && table in aliasOf && Mirrors(aliasOf, t, u)
    ensures Mirrors(aliasOf, t[table := row], u[aliasOf[table] := row])
  {
  }

  lemma MirrorsAllConcat(aliasOf: map<TableId, Alias>, a: seq<Tuple<TableId>>, b: seq<Tuple<TableId>>,
                         c: seq<Tuple<Alias>>, d: seq<Tuple<Alias>>)
    requires MirrorsAll(aliasOf, a, c) && MirrorsAll(aliasOf, b, d)
    ensures MirrorsAll(aliasOf, a + b, c + d)
  {
  }

  lemma {:induction false} MatchingMirrors(aliasOf: map<TableId, Alias>, p: Tuple<TableId> -> bool, q: Tuple<Alias> -> bool,
                                           t: Tuple<TableId>, u: Tuple<Alias>, table: TableId, rows: seq<Row>)
    requires Injective(aliasOf) && table in aliasOf && Agree(aliasOf, p, q) && Mirrors(aliasOf, t, u)
    ensures MirrorsAll(aliasOf, Matching(p, t, table, rows), Matching(q, u, aliasOf[table], rows))
  {
    if rows != [] {
      MirrorsExtend(aliasOf, t, u, table, rows[0]);
      var t', u' := t[table := rows[0]], u[aliasOf[table] := rows[0]];
      MatchingMirrors(aliasOf, p, q, t, u, table, rows[1..]);
      MirrorsAllConcat(aliasOf, if p(t') then [t'] else [], Matching(p, t, table, rows[1..]),
                       if q(u') then [u'] else [], Matching(q, u, aliasOf[table], rows[1..]));
    }
  }

  lemma {:induction false} JoinAllMirrors(aliasOf: map<TableId, Alias>, p: Tuple<TableId> -> bool, q: Tuple<Alias> -> bool,
                                          ts: seq<Tuple<TableId>>, us: seq<Tuple<Alias>>, table: TableId,
                                          rows: seq<Row>, outer: bool)
    requires Injective(aliasOf) && table in aliasOf && Agree(aliasOf, p, q) && MirrorsAll(aliasOf, ts, us)
    ensures MirrorsAll(aliasOf, JoinAll(p, ts, table, rows, outer), JoinAll(q, us, aliasOf[table], rows, outer))
  {
    if ts != [] {
      MatchingMirrors(aliasOf, p, q, ts[0], us[0], table, rows);
      MirrorsExtend(aliasOf, ts[0], us[0], table, map[]);
      JoinAllMirrors(aliasOf, p, q, ts[1..], us[1..], table, rows, outer);
      MirrorsAllConcat(aliasOf, JoinOne(p, ts[0], table, rows, outer), JoinAll(p, ts[1..], table, rows, outer),
                       JoinOne(q, us[0], aliasOf[table], rows, outer), JoinAll(q, us[1..], aliasOf[table], rows, outer));
    }
  }

  lemma {:induction false} FilterMirrors(aliasOf: map<TableId, Alias>, p: Tuple<TableId> -> bool, q: Tuple<Alias> -> bool,
                                         ts: seq<Tuple<TableId>>, us: seq<Tuple<Alias>>)
    requires Agree(aliasOf, p, q) && MirrorsAll(aliasOf, ts, us)
    ensures MirrorsAll(aliasOf, Filter(ts, p), Filter(us, q))
  {
    if ts != [] {
      FilterMirrors(aliasOf, p, q, ts[1..], us[1..]);
      MirrorsAllConcat(aliasOf, if p(ts[0]) then [ts[0]] else [], Filter(ts[1..], p),
                       if q(us[0]) then [us[0]] else [], Filter(us[1..], q));
    }
  }

  lemma {:induction false} MembersMirror(aliasOf: map<TableId, Alias>, ts: seq<Tuple<TableId>>, us: seq<Tuple<Alias>>,
                                         ks: seq<Key>, k: Key)
    requires MirrorsAll(aliasOf, ts, us) && |ts| == |ks|
    ensures MirrorsAll(aliasOf, Members(ts, ks, k), Members(us, ks, k))
  {
    if ts != [] {
      MembersMirror(aliasOf, ts[1..], us[1..], ks[1..], k);
      MirrorsAllConcat(aliasOf, if ks[0] == k then [ts[0]] else [], Members(ts[1..], ks[1..], k),
                       if ks[0] == k then [us[0]] else [], Members(us[1..], ks[1..], k));
    }
  }

  // -- clauses and their bindings ----------------------------------------------------------

  function JoinsTextBound(env: Env, joins: seq<Join>): seq<Binding> {
    if joins == [] then [] else TextBoundAll(env, joins[0].predicates) + JoinsTextBound(env, joins[1..])
  }

  /** The bindings of the whole statement in the order their placeholders stand in the text. */
  function PlanTextBound(env: Env, plan: LogicalPlan): seq<Binding> {
    JoinsTextBound(env, plan.joins) + TextBoundAll(env, plan.where) + TextBoundAll(env, plan.having)
  }

  predicate JoinsInOrder(env: Env, joins: seq<Join>) {
    joins == [] || (AllInOrder(env, joins[0].predicates) && JoinsInOrder(env, joins[1..]))
  }

  predicate PlanInOrder(env: Env, plan: LogicalPlan) {
    JoinsInOrder(env, plan.joins) && AllInOrder(env, plan.where) && AllInOrder(env, plan.having)
  }

  lemma ClauseAligned(env: Env, ps: seq<Predicate>)
    requires EmitClause(env, ps).Ok?
    ensures var bound := EmitClause(env, ps).value.bound;
            |bound| == |TextBoundAll(env, ps)| && (bound == TextBoundAll(env, ps) <==> AllInOrder(env, ps))
  {
    if ps != [] {
      PlaceholdersAlignedAll(env, ps);
    }
  }

  lemma {:induction false} JoinsAligned(env: Env, joins: seq<Join>)
    requires JoinsHavePredicates(joins) && EmitJoins(env, joins).Ok?
    ensures var bound := EmitJoins(env, joins).value.bound;
            |bound| == |JoinsTextBound(env, joins)| && (bound == JoinsTextBound(env, joins) <==> JoinsInOrder(env, joins))
  {
    if joins != [] {
      assert forall j :: j in joins[1..] ==> j in joins;
      ClauseAligned(env, joins[0].predicates);
      JoinsAligned(env, joins[1..]);
      ConcatSplits(EmitAll(env, joins[0].predicates).value.bound, EmitJoins(env, joins[1..]).value.bound,
                   TextBoundAll(env, joins[0].predicates), JoinsTextBound(env, joins[1..]));
    }
  }

  /** The k-th placeholder of the statement takes the k-th bound name and value, exactly when PlanInOrder. */
  lemma StatementAligned(env: Env, plan: LogicalPlan)
    requires JoinsHavePredicates(plan.joins) && EmitSelect(env, plan).Ok?
    ensures var bound := EmitSelect(env, plan).value.bound;
            |bound| == |PlanTextBound(env, plan)| && (bound == PlanTextBound(env, plan) <==> PlanInOrder(env, plan))
  {
    var j, w, h := EmitJoins(env, plan.joins).value.bound, EmitClause(env, plan.where).value.bound,
      EmitClause(env, plan.having).value.bound;
    var j', w', h' := JoinsTextBound(env, plan.joins), TextBoundAll(env, plan.where), TextBoundAll(env, plan.having);
    JoinsAligned(env, plan.joins);
    ClauseAligned(env, plan.where);
    ClauseAligned(env, plan.having);
    ConcatSplits(j + w, h, j' + w', h');
    ConcatSplits(j, w, j', w');
  }

  /** Two bound members in an IN list with a differing bound left side: 1 IN (2, 2) runs as 2 IN (2, 1). */
  lemma BoundLeftSideMisaligns(env: Env)
    ensures var one, two := Literal(Number(1.0)), Literal(Number(2.0));
            var p := Membership(false, one, [two, two]);
            var e := EmitPredicate(env, p);
            && e.Ok? && Holes(e.value.tree) == |e.value.bound|
            && Denote(p, env.names, map[]) == No
            && Eval(e.value.tree, BoundValues(e.value.bound), 0, map[]) == Yes
  {
    var one, two := Literal(Number(1.0)), Literal(Number(2.0));
    var p := Membership(false, one, [two, two]);
    PredicateFillsItsHoles(env, p);
    assert EmitOperands(env, [two]).value.tree == [Hole];
    assert EmitOperands(env, [two]).value.bound == [Binding("literal", Number(2.0))];
    var e := EmitPredicate(env, p).value;
    assert [two, two][1..] == [two];
    assert e.tree == SqlIn(Hole, [Hole, Hole]);
    var vals := BoundValues(e.bound);
    assert e.bound == [Binding("literal", Number(2.0)), Binding("literal", Number(2.0)), Binding("literal", Number(1.0))];
    assert vals == [Number(2.0), Number(2.0), Number(1.0)];
    assert ListValues([Hole, Hole], vals, 1, map[]) == [Number(2.0), Number(1.0)] by {
      assert [Hole, Hole][1..] == [Hole];
      assert ListValues([Hole], vals, 2, map[]) == [Number(1.0)];
    }
    assert OperandValues([two, two], env.names, map[]) == [Number(2.0), Number(2.0)] by {
      assert OperandValues([two], env.names, map[]) == [Number(2.0)];
    }
    assert IsMember(Number(1.0), [Number(2.0), Number(2.0)]) == No by {
      assert IsMember(Number(1.0), [Number(2.0)]) == No;
    }
  }

  // -- joins and filters ----------------------------------------------------------------------

  lemma ClauseAgrees(env: Env, ps: seq<Predicate>, vals: seq<Value>, at: nat)
    requires Named(env) && ps != [] && EmitAll(env, ps).Ok? && Fits(vals, at, TextBoundAll(env, ps))
    ensures ReadBack(EmitAll(env, ps).value.tree).Ok?
    ensures Agree(env.aliasOf, Holds(ps, env.names), SqlHolds(ReadBack(EmitAll(env, ps).value.tree).value, vals, at))
  {
    ClauseReadsBack(env, ps);
    var c := ReadBack(EmitAll(env, ps).value.tree).value;
    forall t, u | Mirrors(env.aliasOf, t, u)
      ensures Holds(ps, env.names)(t) == SqlHolds(c, vals, at)(u)
    {
      ClauseMeaning(env, ps, vals, at, t, u);
    }
  }

  lemma ClauseHoles(env: Env, ps: seq<Predicate>)
    requires ps != [] && EmitAll(env, ps).Ok?
    ensures Holes(EmitAll(env, ps).value.tree) == |TextBoundAll(env, ps)|
  {
    ClauseFillsItsHoles(env, ps);
    PlaceholdersAlignedAll(env, ps);
  }

  predicate JoinsScanned(env: Env, joins: seq<Join>) {
    forall j :: j in joins ==> j.right.table in env.aliasOf && env.aliasOf[j.right.table] == j.right.alias
  }

  lemma {:induction false} JoinsReadBack(env: Env, joins: seq<Join>)
    requires JoinsHavePredicates(joins) && EmitJoins(env, joins).Ok?
    ensures var read := ReadBackJoins(EmitJoins(env, joins).value.tree);
            read.Ok? && |read.value| == |joins| && JoinHoles(read.value) == |JoinsTextBound(env, joins)|
    ensures joins != [] ==>
              var read := ReadBackJoins(EmitJoins(env, joins).value.tree).value;
              var j := joins[0];
              && EmitAll(env, j.predicates).Ok? && EmitJoins(env, joins[1..]).Ok?
              && ReadBack(EmitAll(env, j.predicates).value.tree).Ok?
              && read[0] == SqlJoin(TableRef(j.right.physical, j.right.alias),
                                    ReadBack(EmitAll(env, j.predicates).value.tree).value, j.joinType)
              && Ok(read[1..]) == ReadBackJoins(EmitJoins(env, joins[1..]).value.tree)
              && Holes(read[0].on) == |TextBoundAll(env, j.predicates)|
  {
    if joins != [] {
      var ps := joins[0].predicates;
      assert forall k :: k in joins[1..] ==> k in joins;
      JoinsReadBack(env, joins[1..]);
      ClauseReadsBack(env, ps);
      ClauseHoles(env, ps);
    }
  }

  lemma JoinRowsStep(env: Env, joins: seq<Join>, db: Database, ts: seq<Tuple<TableId>>)
    requires joins != []
    ensures var j := joins[0];
            JoinRows(joins, env.names, db, ts) == JoinRows(joins[1..], env.names, db,
              JoinAll(Holds(j.predicates, env.names), ts, j.right.table, RowsOf(db, j.right.physical), j.joinType.LeftOuter?))
  {
  }

  lemma EvalJoinsStep(joins: seq<SqlJoin>, vals: seq<Value>, at: nat, db: Database, us: seq<Tuple<Alias>>)
    requires joins != []
    ensures var j := joins[0];
            EvalJoins(joins, vals, at, db, us) == EvalJoins(joins[1..], vals, at + Holes(j.on), db,
              JoinAll(SqlHolds(j.on, vals, at), us, j.table.alias, RowsOf(db, j.table.physical), j.joinType.LeftOuter?))
  {
    hide JoinAll, SqlHolds, RowsOf, Holes;
  }

  lemma {:induction false} JoinsMirror(env: Env, joins: seq<Join>, read: seq<SqlJoin>, vals: seq<Value>, at: nat,
                                       db: Database, ts: seq<Tuple<TableId>>, us: seq<Tuple<Alias>>)
    requires Named(env) && Injective(env.aliasOf) && JoinsScanned(env, joins) && JoinsHavePredicates(joins)
    requires EmitJoins(env, joins).Ok? && Fits(vals, at, JoinsTextBound(env, joins))
    requires ReadBackJoins(EmitJoins(env, joins).value.tree) == Ok(read)
    requires MirrorsAll(env.aliasOf, ts, us)
    ensures MirrorsAll(env.aliasOf, JoinRows(joins, env.names, db, ts), EvalJoins(read, vals, at, db, us))
    decreases joins
  {
    hide MirrorsAll, Mirrors, Named, Injective, JoinAll, Fits, Holds, SqlHolds, EmitAll, ReadBack, TextBoundAll;
    JoinsReadBack(env, joins);
    if joins == [] {
      assert JoinRows(joins, env.names, db, ts) == ts;
      assert EvalJoins(read, vals, at, db, us) == us;
    } else {
      var j, ps, on := joins[0], joins[0].predicates, read[0].on;
      assert j in joins && forall k :: k in joins[1..] ==> k in joins;
      FitsSplits(vals, at, TextBoundAll(env, ps), JoinsTextBound(env, joins[1..]));
      ClauseAgrees(env, ps, vals, at);
      var rows, outer := RowsOf(db, j.right.physical), j.joinType.LeftOuter?;
      var ts' := JoinAll(Holds(ps, env.names), ts, j.right.table, rows, outer);
      var us' := JoinAll(SqlHolds(on, vals, at), us, j.right.alias, rows, outer);
      JoinAllMirrors(env.aliasOf, Holds(ps, env.names), SqlHolds(on, vals, at), ts, us, j.right.table, rows, outer);
      JoinsMirror(env, joins[1..], read[1..], vals, at + Holes(on), db, ts', us');
      JoinRowsStep(env, joins, db, ts);
      EvalJoinsStep(read, vals, at, db, us);
      assert JoinRows(joins, env.names, db, ts) == JoinRows(joins[1..], env.names, db, ts');
      assert EvalJoins(read, vals, at, db, us) == EvalJoins(read[1..], vals, at + Holes(on), db, us');
    }
  }

  lemma WhereMirrors(env: Env, ps: seq<Predicate>, read: Option<Cond>, vals: seq<Value>, at: nat,
                     ts: seq<Tuple<TableId>>, us: seq<Tuple<Alias>>)
    requires Named(env) && EmitClause(env, ps).Ok? && Fits(vals, at, TextBoundAll(env, ps))
    requires ReadBackOptional(EmitClause(env, ps).value.tree) == Ok(read)
    requires MirrorsAll(env.aliasOf, ts, us)
    ensures CondHoles(read) == |TextBoundAll(env, ps)|
    ensures MirrorsAll(env.aliasOf, Filter(ts, Holds(ps, env.names)), EvalWhere(read, vals, at, us))
  {
    hide Named, Fits, MirrorsAll, EmitAll;
    if ps == [] {
      FilterAll(ts, Holds(ps, env.names));
    } else {
      ClauseAgrees(env, ps, vals, at);
      ClauseReadsBack(env, ps);
      ClauseHoles(env, ps);
      FilterMirrors(env.aliasOf, Holds(ps, env.names), SqlHolds(read.value, vals, at), ts, us);
    }
  }

  lemma {:induction false} FilterAll<T(!new)>(ts: seq<T>, p: T -> bool)
    requires forall t :: p(t)
    ensures Filter(ts, p) == ts
  {
    if ts != [] {
      FilterAll(ts[1..], p);
    }
  }

  lemma ClauseRoundTrips(env: Env, ps: seq<Predicate>)
    requires EmitClause(env, ps).Ok?
    ensures ReadBackOptional(EmitClause(env, ps).value.tree).Ok?
  {
    if ps != [] {
      ClauseReadsBack(env, ps);
    }
  }

  // -- grouping keys -----------------------------------------------------------------------

  lemma ColumnMeaning(env: Env, c: ColumnId, t: Tuple<TableId>, u: Tuple<Alias>)
    requires Named(env) && Mirrors(env.aliasOf, t, u) && EmitColumn(env, c).Ok?
    ensures ScalarValue(EmitColumn(env, c).value.tree, [], 0, u) == Field(t, c.table, c.name)
  {
  }

  lemma {:induction false} DimensionsMeaning(env: Env, gs: seq<(string, Option<ColumnId>)>, engine: Engine,
                                             t: Tuple<TableId>, u: Tuple<Alias>)
    requires Named(env) && Mirrors(env.aliasOf, t, u) && EmitDimensions(env, gs).Ok?
    ensures EvalKeys(engine, ProjectedExprs(EmitDimensions(env, gs).value.tree), u) == DimensionKey(gs, t)
    ensures EmitDimensions(env, gs).value.tree != [] <==> HasDimension(gs)
  {
    if gs != [] {
      DimensionsMeaning(env, gs[1..], engine, t, u);
      if gs[0].1.Some? {
        ColumnMeaning(env, gs[0].1.value, t, u);
      }
    }
  }

  lemma {:induction false} KeysConcat(engine: Engine, a: seq<Projection>, b: seq<Projection>, u: Tuple<Alias>)
    ensures EvalKeys(engine, ProjectedExprs(a + b), u) == EvalKeys(engine, ProjectedExprs(a), u) + EvalKeys(engine, ProjectedExprs(b), u)
  {
    if a == [] {
      assert a + b == b;
    } else {
      assert (a + b)[1..] == a[1..] + b;
      KeysConcat(engine, a[1..], b, u);
    }
  }

  /** The grouping projections: the time bucket, then the dimensions. */
  function KeyProjections(env: Env, plan: LogicalPlan): seq<Projection>
    requires EmitOutput(env, plan).Ok?
  {
    EmitBucketProjection(env, plan.timeBucket).value.tree + EmitDimensions(env, plan.groupBy).value.tree
  }

  lemma KeyMeaning(env: Env, plan: LogicalPlan, engine: Engine, t: Tuple<TableId>, u: Tuple<Alias>)
    requires Named(env) && Mirrors(env.aliasOf, t, u) && EmitOutput(env, plan).Ok?
    ensures EvalKeys(engine, ProjectedExprs(KeyProjections(env, plan)), u) == PlanKey(plan, engine)(t)
    ensures KeyProjections(env, plan) != [] <==> Grouped(plan)
  {
    var bucket, dims := EmitBucketProjection(env, plan.timeBucket).value.tree, EmitDimensions(env, plan.groupBy).value.tree;
    KeysConcat(engine, bucket, dims, u);
    DimensionsMeaning(env, plan.groupBy, engine, t, u);
    if plan.timeBucket.Some? {
      ColumnMeaning(env, plan.timeBucket.value.column, t, u);
      assert ProjectedExprs(bucket) == [bucket[0].expr];
      assert EvalKeys(engine, [bucket[0].expr], u) == BucketKey(plan, engine, t);
    }
  }

  lemma {:induction false} KeysMirror(env: Env, plan: LogicalPlan, engine: Engine, es: seq<OutExpr>,
                                      ts: seq<Tuple<TableId>>, us: seq<Tuple<Alias>>)
    requires Named(env) && EmitOutput(env, plan).Ok? && es == ProjectedExprs(KeyProjections(env, plan))
    requires MirrorsAll(env.aliasOf, ts, us)
    ensures KeysOf(ts, PlanKey(plan, engine)) == KeysOf(us, GroupKeyOf(engine, es))
  {
    forall i | 0 <= i < |ts|
      ensures PlanKey(plan, engine)(ts[i]) == GroupKeyOf(engine, es)(us[i])
    {
      KeyMeaning(env, plan, engine, ts[i], us[i]);
    }
  }

  // -- measures --------------------------------------------------------------------------------

  lemma {:induction false} ColumnOverMirrors(env: Env, c: ColumnId, ts: seq<Tuple<TableId>>, us: seq<Tuple<Alias>>)
    requires Named(env) && MirrorsAll(env.aliasOf, ts, us) && EmitColumn(env, c).Ok?
    ensures ColumnOver(EmitColumn(env, c).value.tree, us) == FieldOver(c, ts)
  {
    if ts != [] {
      ColumnMeaning(env, c, ts[0], us[0]);
      ColumnOverMirrors(env, c, ts[1..], us[1..]);
    }
  }

  /** An emitted measure computes plain quotients, with a NULL divisor for zero under the NULL policy. */
  lemma {:induction false} MeasureServes(env: Env, m: Measure, engine: Engine, ts: seq<Tuple<TableId>>, us: seq<Tuple<Alias>>)
    requires Named(env) && MirrorsAll(env.aliasOf, ts, us) && EmitMeasure(env, m).Ok?
    ensures EvalMeasure(engine, EmitMeasure(env, m).value.tree, us) == Served(m, engine, ts)
  {
    match m
    case Aggregate(op, None) =>
    case Aggregate(op, Some(c)) => ColumnOverMirrors(env, c, ts, us);
    case Ratio(n, d, _) =>
      MeasureServes(env, n, engine, ts, us);
      MeasureServes(env, d, engine, ts, us);
  }

  /** The tree that a measure's text parses to is the one the left-grouped measure emits. */
  lemma {:induction false} TextIsLeftGrouped(env: Env, m: Measure)
    requires EmitMeasure(env, m).Ok?
    ensures EmitMeasure(env, LeftGrouped(m)).Ok?
    ensures EmitMeasure(env, LeftGrouped(m)).value.tree == RegroupMeasure(EmitMeasure(env, m).value.tree)
    decreases m, 0
  {
    if m.Ratio? {
      TextIsLeftGrouped(env, m.numerator);
      if m.policy.NullOnZero? {
        TextIsLeftGrouped(env, m.denominator);
        GuardedDivisor(RegroupMeasure(EmitMeasure(env, m.numerator).value.tree), EmitMeasure(env, m.denominator).value.tree);
      } else {
        TextIsGrafted(env, LeftGrouped(m.numerator), m.denominator, m.policy);
      }
    }
  }

  lemma GuardedDivisor(acc: SqlMeasure, d: SqlMeasure)
    ensures GraftDivisor(acc, SqlNullIfZero(d)) == SqlDiv(acc, SqlNullIfZero(RegroupMeasure(d)))
  {
    assert RegroupMeasure(SqlNullIfZero(d)) == SqlNullIfZero(RegroupMeasure(d));
  }

  lemma {:induction false} TextIsGrafted(env: Env, acc: Measure, d: Measure, policy: ZeroPolicy)
    requires EmitMeasure(env, acc).Ok? && EmitMeasure(env, d).Ok? && !policy.NullOnZero?
    ensures EmitMeasure(env, GraftRatio(acc, d, policy)).Ok?
    ensures EmitMeasure(env, GraftRatio(acc, d, policy)).value.tree
         == GraftDivisor(EmitMeasure(env, acc).value.tree, EmitMeasure(env, d).value.tree)
    decreases d, 1
  {
    if d.Ratio? {
      TextIsGrafted(env, acc, d.numerator, policy);
      var longer := GraftRatio(acc, d.numerator, policy);
      if d.policy.NullOnZero? {
        TextIsLeftGrouped(env, d.denominator);
        GuardedDivisor(EmitMeasure(env, longer).value.tree, EmitMeasure(env, d.denominator).value.tree);
      } else {
        TextIsGrafted(env, longer, d.denominator, d.policy);
      }
    }
  }

  /** A measure whose ratios all answer NULL on a zero denominator gives its contract value. */
  lemma MeasureMeaning(env: Env, m: Measure, engine: Engine, ts: seq<Tuple<TableId>>, us: seq<Tuple<Alias>>)
    requires Named(env) && MirrorsAll(env.aliasOf, ts, us)
    requires EmitMeasure(env, m).Ok? && PolicyKept(m)
    ensures ContractMeasure(m, engine, ts) == Gives(EvalMeasure(engine, RegroupMeasure(EmitMeasure(env, m).value.tree), us))
  {
    KeptIsRight(m, engine, ts);
    TextIsLeftGrouped(env, m);
    MeasureServes(env, m, engine, ts, us);
  }

  lemma {:induction false} MeasuresServe(env: Env, ms: seq<(string, Measure)>, engine: Engine,
                                         ts: seq<Tuple<TableId>>, us: seq<Tuple<Alias>>)
    requires Named(env) && MirrorsAll(env.aliasOf, ts, us) && EmitMeasures(env, ms).Ok?
    ensures EvalProjections(engine, RegroupProjections(EmitMeasures(env, ms).value.tree), us) == ServedValues(ms, engine, ts)
  {
    hide Named, MirrorsAll, EmitMeasure, RegroupMeasure, Served, LeftGrouped, EvalMeasure;
    if ms != [] {
      MeasuresServe(env, ms[1..], engine, ts, us);
      var m := ms[0].1;
      TextIsLeftGrouped(env, m);
      MeasureServes(env, LeftGrouped(m), engine, ts, us);
      var all, rest := EmitMeasures(env, ms).value.tree, EmitMeasures(env, ms[1..]).value.tree;
      assert all[1..] == rest && RegroupProjections(all)[1..] == RegroupProjections(rest);
    }
  }

  // -- output rows -------------------------------------------------------------------------------

  lemma {:induction false} ProjectionsConcat(engine: Engine, a: seq<Projection>, b: seq<Projection>, us: seq<Tuple<Alias>>)
    ensures EvalProjections(engine, a + b, us) == EvalProjections(engine, a, us) + EvalProjections(engine, b, us)
  {
    if a == [] {
      assert a + b == b;
    } else {
      assert (a + b)[1..] == a[1..] + b;
      ProjectionsConcat(engine, a[1..], b, us);
    }
  }

  lemma {:induction false} KeyProjectionsShowTheKey(engine: Engine, ps: seq<Projection>, us: seq<Tuple<Alias>>)
    requires forall p :: p in ps ==> !p.expr.Measured?
    ensures EvalProjections(engine, ps, us) == EvalKeys(engine, ProjectedExprs(ps), Representative(us))
  {
    if ps != [] {
      assert ps[0] in ps && forall p :: p in ps[1..] ==> p in ps;
      KeyProjectionsShowTheKey(engine, ps[1..], us);
    }
  }

  lemma {:induction false} DimensionsArePlain(env: Env, gs: seq<(string, Option<ColumnId>)>)
    requires EmitDimensions(env, gs).Ok?
    ensures forall p :: p in EmitDimensions(env, gs).value.tree ==> p.expr.Plain?
  {
    if gs != [] {
      DimensionsArePlain(env, gs[1..]);
    }
  }

  /** Every member of a group has the group's key. */
  lemma {:induction false} MembersHaveTheKey<T>(ts: seq<T>, ks: seq<Key>, k: Key, keyOf: T -> Key)
    requires |ts| == |ks| && forall i :: 0 <= i < |ts| ==> ks[i] == keyOf(ts[i])
    ensures forall i :: 0 <= i < |Members(ts, ks, k)| ==> keyOf(Members(ts, ks, k)[i]) == k
    ensures k in ks <==> Members(ts, ks, k) != []
  {
    if ts != [] {
      assert forall i :: 0 <= i < |ts| - 1 ==> ts[1..][i] == ts[i + 1] && ks[1..][i] == ks[i + 1];
      MembersHaveTheKey(ts[1..], ks[1..], k, keyOf);
      assert ks == [ks[0]] + ks[1..];
    }
  }

  lemma {:induction false} RegroupConcat(a: seq<Projection>, b: seq<Projection>)
    ensures RegroupProjections(a + b) == RegroupProjections(a) + RegroupProjections(b)
    ensures (forall p :: p in a ==> !p.expr.Measured?) ==> RegroupProjections(a) == a
  {
  }

  lemma RowServes(env: Env, plan: LogicalPlan, engine: Engine, k: Key, ts: seq<Tuple<TableId>>, us: seq<Tuple<Alias>>)
    requires Named(env) && MirrorsAll(env.aliasOf, ts, us) && EmitOutput(env, plan).Ok?
    requires if Grouped(plan) then ts != [] && PlanKey(plan, engine)(ts[0]) == k else k == []
    ensures EvalProjections(engine, RegroupProjections(EmitOutput(env, plan).value.tree.0), us)
         == k + ServedValues(plan.measures, engine, ts)
  {
    hide MirrorsAll, Named, Mirrors, ServedValues, PlanKey, Grouped, EmitMeasures, EmitDimensions, EvalProjections, RegroupProjections,
      EvalKeys;
    var keys := KeyProjections(env, plan);
    DimensionsArePlain(env, plan.groupBy);
    RegroupConcat(keys, EmitMeasures(env, plan.measures).value.tree);
    ProjectionsConcat(engine, keys, RegroupProjections(EmitMeasures(env, plan.measures).value.tree), us);
    MeasuresServe(env, plan.measures, engine, ts, us);
    KeyProjectionsShowTheKey(engine, keys, us);
    RepresentativesMirror(env.aliasOf, ts, us);
    KeyMeaning(env, plan, engine, Representative(ts), Representative(us));
  }

  lemma RepresentativesMirror(aliasOf: map<TableId, Alias>, ts: seq<Tuple<TableId>>, us: seq<Tuple<Alias>>)
    requires MirrorsAll(aliasOf, ts, us)
    ensures Mirrors(aliasOf, Representative(ts), Representative(us))
  {
  }

  // -- the whole statement -------------------------------------------------------------------------

  /** A clause of the statement selects the rows that the plan's predicates select. */
  ghost predicate Selects(env: Env, ps: seq<Predicate>, read: Option<Cond>, vals: seq<Value>, at: nat) {
    forall t, u | Mirrors(env.aliasOf, t, u) ::
      Holds(ps, env.names)(t) == (read.None? || SqlHolds(read.value, vals, at)(u))
  }

  lemma HavingAgrees(env: Env, ps: seq<Predicate>, read: Option<Cond>, vals: seq<Value>, at: nat)
    requires Named(env) && EmitClause(env, ps).Ok? && Fits(vals, at, TextBoundAll(env, ps))
    requires ReadBackOptional(EmitClause(env, ps).value.tree) == Ok(read)
    ensures Selects(env, ps, read, vals, at)
  {
    if ps != [] {
      ClauseAgrees(env, ps, vals, at);
    }
  }

  lemma GroupMembersMirror(aliasOf: map<TableId, Alias>, grouped: bool, ts: seq<Tuple<TableId>>, us: seq<Tuple<Alias>>,
                           ks: seq<Key>, k: Key)
    requires MirrorsAll(aliasOf, ts, us) && |ts| == |ks|
    ensures MirrorsAll(aliasOf, GroupMembers(grouped, ts, ks, k), GroupMembers(grouped, us, ks, k))
  {
    MembersMirror(aliasOf, ts, us, ks, k);
  }

  lemma {:induction false} GroupsServe(env: Env, plan: LogicalPlan, engine: Engine, s: Select, vals: seq<Value>,
                                         ts: seq<Tuple<TableId>>, us: seq<Tuple<Alias>>, ks: seq<Key>, groups: seq<Key>)
    requires Named(env) && MirrorsAll(env.aliasOf, ts, us) && |ts| == |us| == |ks|
    requires forall i :: 0 <= i < |ts| ==> ks[i] == PlanKey(plan, engine)(ts[i])
    requires forall k :: k in groups ==> if Grouped(plan) then k in ks else k == []
    requires EmitOutput(env, plan).Ok?
    requires s.projections == RegroupProjections(EmitOutput(env, plan).value.tree.0) && (s.group != [] <==> Grouped(plan))
    requires Selects(env, plan.having, s.having, vals, JoinHoles(s.joins) + CondHoles(s.where))
    ensures ServedGroups(plan, env.names, engine, ts, ks, groups) == EvalGroups(engine, s, vals, us, ks, groups)
  {
    hide MirrorsAll, Named, Mirrors, PlanKey, ServedValues, EvalProjections, SqlHolds, Holds, EmitOutput, Members, RegroupProjections;
    if groups != [] {
      var k := groups[0];
      assert k in groups && forall g :: g in groups[1..] ==> g in groups;
      GroupsServe(env, plan, engine, s, vals, ts, us, ks, groups[1..]);
      var members, members' := GroupMembers(Grouped(plan), ts, ks, k), GroupMembers(Grouped(plan), us, ks, k);
      GroupMembersMirror(env.aliasOf, Grouped(plan), ts, us, ks, k);
      RepresentativesMirror(env.aliasOf, members, members');
      MembersHaveTheKey(ts, ks, k, PlanKey(plan, engine));
      RowServes(env, plan, engine, k, members, members');
    }
  }

  /** The statement's source rows are the plan's joined and filtered rows under their aliases. */
  lemma SourceMeaning(env: Env, plan: LogicalPlan, s: Select, vals: seq<Value>, db: Database)
    requires Named(env) && Injective(env.aliasOf) && JoinsHavePredicates(plan.joins) && JoinsScanned(env, plan.joins)
    requires plan.base.table in env.aliasOf && env.aliasOf[plan.base.table] == plan.base.alias
    requires EmitConditions(env, plan).Ok? && Fits(vals, 0, PlanTextBound(env, plan))
    requires s.from == TableRef(plan.base.physical, plan.base.alias)
    requires ReadBackJoins(EmitJoins(env, plan.joins).value.tree) == Ok(s.joins)
    requires ReadBackOptional(EmitClause(env, plan.where).value.tree) == Ok(s.where)
    ensures MirrorsAll(env.aliasOf, SourceRows(plan, env.names, db), EvalSource(s, vals, db))
    ensures JoinHoles(s.joins) + CondHoles(s.where) == |JoinsTextBound(env, plan.joins)| + |TextBoundAll(env, plan.where)|
    ensures Fits(vals, JoinHoles(s.joins) + CondHoles(s.where), TextBoundAll(env, plan.having))
  {
    hide EvalJoins, JoinRows, EmitClause, EmitJoins, MirrorsAll, Named, Injective, Fits, ReadBackJoins, ReadBackOptional,
      TextBoundAll, JoinsTextBound, Filter, JoinsScanned;
    var j, w, h := JoinsTextBound(env, plan.joins), TextBoundAll(env, plan.where), TextBoundAll(env, plan.having);
    FitsSplits(vals, 0, j + w, h);
    FitsSplits(vals, 0, j, w);
    JoinsReadBack(env, plan.joins);
    var rows := RowsOf(db, plan.base.physical);
    var ts, us := ScanRows(plan.base.table, rows), ScanRows(plan.base.alias, rows);
    ScansMirror(env.aliasOf, plan.base.table, rows);
    JoinsMirror(env, plan.joins, s.joins, vals, 0, db, ts, us);
    WhereMirrors(env, plan.where, s.where, vals, |j|, JoinRows(plan.joins, env.names, db, ts),
                 EvalJoins(s.joins, vals, 0, db, us));
  }

  lemma ScansMirror(aliasOf: map<TableId, Alias>, table: TableId, rows: seq<Row>)
    requires Injective(aliasOf) && table in aliasOf
    ensures MirrorsAll(aliasOf, ScanRows(table, rows), ScanRows(aliasOf[table], rows))
  {
    forall i | 0 <= i < |rows|
      ensures Mirrors(aliasOf, map[table := rows[i]], map[aliasOf[table] := rows[i]])
    {
      EmptyMirrors(aliasOf);
      MirrorsExtend(aliasOf, map[], map[], table, rows[i]);
    }
  }

  lemma EmptyMirrors(aliasOf: map<TableId, Alias>)
    ensures Mirrors(aliasOf, map[], map[])
  {
  }

  /** Each scanned table has its own alias in the environment. */
  predicate Aliased(env: Env, plan: LogicalPlan) {
    && Injective(env.aliasOf) && JoinsScanned(env, plan.joins)
    && plan.base.table in env.aliasOf && env.aliasOf[plan.base.table] == plan.base.alias
  }

  /** The alias map of a plan whose scans are distinct. */
  predicate PlanScanned(env: Env, plan: LogicalPlan) {
    DistinctScans(Scans(plan)) && env.aliasOf == AliasMap(Scans(plan))
  }

  lemma PlanScansAreAliased(env: Env, plan: LogicalPlan)
    requires PlanScanned(env, plan)
    ensures Aliased(env, plan)
    ensures forall t :: t in env.aliasOf <==> t in ScannedTables(plan)
  {
    var scans := Scans(plan);
    AliasMapOf(scans);
    assert scans[0] == plan.base;
    forall j | j in plan.joins
      ensures j.right.table in env.aliasOf && env.aliasOf[j.right.table] == j.right.alias
    {
      var i :| 0 <= i < |plan.joins| && plan.joins[i] == j;
      assert scans[i + 1] == j.right;
    }
  }

  /** The emitted text of every plan the compiler accepts parses completely. */
  lemma StatementReadsBack(env: Env, plan: LogicalPlan)
    requires JoinsHavePredicates(plan.joins) && EmitSelect(env, plan).Ok?
    ensures Reparse(EmitSelect(env, plan).value.tree).Ok?
  {
    JoinsReadBack(env, plan.joins);
    ClauseRoundTrips(env, plan.where);
    ClauseRoundTrips(env, plan.having);
    ProjectionsReadBack(EmitSelect(env, plan).value.tree.projections);
  }

  /**
    What every accepted plan's statement answers, whatever the policies of its measures: the
    statement parsed from the emitted text, evaluated with the bound values by position, yields
    the served rows, in the contract's column order, on every database and every engine, and
    carries the plan's order and limit.
  */
  lemma CompiledQueryServes(env: Env, plan: LogicalPlan, engine: Engine, db: Database)
    requires Named(env) && Aliased(env, plan) && JoinsHavePredicates(plan.joins)
    requires EmitSelect(env, plan).Ok? && PlanInOrder(env, plan)
    ensures var e := EmitSelect(env, plan).value;
            var read := Reparse(e.tree);
            && read.Ok?
            && EvalSelect(engine, read.value, BoundValues(e.bound), db) == ServedRows(plan, env.names, engine, db)
            && read.value.order == plan.orderBy && read.value.limit == plan.limit
  {
    hide MirrorsAll, Named, Mirrors, EvalSource, SourceRows, Injective, EmitJoins, EmitClause, ReadBackJoins,
      ReadBackOptional, JoinsScanned, TextBoundAll, JoinsTextBound, Selects, FirstSeen, EvalGroups, ServedGroups, PlanKey, PlanInOrder,
      KeysOf, EmitMeasures, EmitDimensions, DistinctScans, ReadBackProjections, RegroupProjections;
    StatementReadsBack(env, plan);
    StatementAligned(env, plan);
    var e := EmitSelect(env, plan).value;
    var vals, s := BoundValues(e.bound), Reparse(e.tree).value;
    ProjectionsReadBack(e.tree.projections);
    assert Fits(vals, 0, PlanTextBound(env, plan)) by {
      assert vals[0..|e.bound|] == vals;
    }
    SourceMeaning(env, plan, s, vals, db);
    var ts, us := SourceRows(plan, env.names, db), EvalSource(s, vals, db);
    KeysMirror(env, plan, engine, s.group, ts, us);
    EmptyMirrors(env.aliasOf);
    KeyMeaning(env, plan, engine, map[], map[]);
    HavingAgrees(env, plan.having, s.having, vals, JoinHoles(s.joins) + CondHoles(s.where));
    var ks := KeysOf(ts, PlanKey(plan, engine));
    GroupsServe(env, plan, engine, s, vals, ts, us, ks, GroupKeys(Grouped(plan), ks));
  }

  /**
    The compiler preserves meaning: it answers exactly the rows the plan asks for when every
    kept group's measures are answered right, which measures under the NULL policy always are.
  */
  lemma CompiledQueryMeaning(env: Env, plan: LogicalPlan, engine: Engine, db: Database)
    requires Named(env) && Aliased(env, plan) && JoinsHavePredicates(plan.joins)
    requires EmitSelect(env, plan).Ok? && PlanInOrder(env, plan)
    ensures var e := EmitSelect(env, plan).value;
            var read := Reparse(e.tree);
            && read.Ok?
            && (RowsRight(plan, env.names, engine, db) <==>
                  NothingRefused(plan, env.names, engine, db)
                  && EvalSelect(engine, read.value, BoundValues(e.bound), db) == PlanRows(plan, env.names, engine, db))
            && ((forall m :: m in plan.measures ==> PolicyKept(m.1)) ==> RowsRight(plan, env.names, engine, db))
            && read.value.order == plan.orderBy && read.value.limit == plan.limit
  {
    hide Named, Aliased, PlanInOrder, EmitSelect, Reparse, EvalSelect, RowsRight, NothingRefused, ServedRows, PlanRows, PolicyKept;
    CompiledQueryServes(env, plan, engine, db);
    AnswersExact(plan, env.names, engine, db);
    if forall m :: m in plan.measures ==> PolicyKept(m.1) {
      KeptPlansAreRight(plan, env.names, engine, db);
    }
  }
}
