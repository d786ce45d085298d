/**
  What compiling each part of a logical plan emits: the SQL tree, the values bound on the way
  and the columns touched, or the error raised.
*/
module Emissions {
  import opened Errors
  import opened Values
  import opened Expressions
  import opened Catalog
  import opened SqlTree
  import opened Plans
  import opened SqlQuery

  /** One bound parameter: its audit name and its value. */
  datatype Binding = Binding(name: string, value: Value)

  datatype Env = Env(aliasOf: map<TableId, Alias>, names: Names, columns: map<ColumnId, ColumnRecord>)

  /** What emitting a part of the plan yields: a tree, the bindings appended, the columns touched. */
  datatype Emission<+T> = Emission(tree: T, bound: seq<Binding>, columns: set<ColumnId>)

  /** The emission of a list from that of its first part and of the rest. */
  function Cons<T>(first: Outcome<Emission<T>>, others: Outcome<Emission<seq<T>>>): Outcome<Emission<seq<T>>> {
    var e :- first;
    var es :- others;
    Ok(Emission([e.tree] + es.tree, e.bound + es.bound, e.columns + es.columns))
  }

  /** An emitted list that continues with what the remaining parts emit. */
  function Continue<T>(done: Emission<seq<T>>, others: Outcome<Emission<seq<T>>>): Outcome<Emission<seq<T>>> {
    var es :- others;
    Ok(Emission(done.tree + es.tree, done.bound + es.bound, done.columns + es.columns))
  }

  function Append<T>(done: Emission<seq<T>>, e: Emission<T>): Emission<seq<T>> {
    Emission(done.tree + [e.tree], done.bound + e.bound, done.columns + e.columns)
  }

  lemma ContinueStep<T>(done: Emission<seq<T>>, e: Emission<T>, others: Outcome<Emission<seq<T>>>)
    ensures Continue(done, Cons(Ok(e), others)) == Continue(Append(done, e), others)
  {
    if others.Ok? {
      var es := others.value;
      assert done.tree + ([e.tree] + es.tree) == (done.tree + [e.tree]) + es.tree;
      assert done.bound + (e.bound + es.bound) == (done.bound + e.bound) + es.bound;
      assert done.columns + (e.columns + es.columns) == (done.columns + e.columns) + es.columns;
    }
  }

  lemma ContinueStart<T>(others: Outcome<Emission<seq<T>>>)
    ensures Continue(Emission([], [], {}), others) == others
  {
    if others.Ok? {
      assert [] + others.value.tree == others.value.tree;
      assert [] + others.value.bound == others.value.bound;
      assert {} + others.value.columns == others.value.columns;
    }
  }

  lemma ContinueEnd<T>(done: Emission<seq<T>>)
    ensures Continue(done, Ok(Emission([], [], {}))) == Ok(done)
  {
    assert done.tree + [] == done.tree && done.bound + [] == done.bound && done.columns + {} == done.columns;
  }

  // -- emission as functions -------------------------------------------------------------

  function EmitColumn(env: Env, c: ColumnId): Outcome<Emission<Scalar>> {
    if c.table !in env.aliasOf then Raise(UnresolvedReference)
    else if c !in env.columns then Raise(ObjectNotFound)
    else Ok(Emission(Col(env.aliasOf[c.table], env.columns[c].name), [], {c}))
  }

  function EmitOperand(env: Env, o: Operand): Outcome<Emission<Scalar>> {
    match o
    case Column(c) => EmitColumn(env, c)
    case Literal(v) => Ok(Emission(Hole, [Binding("literal", v)], {}))
    case Enum(s, m) =>
      if (s, m) !in env.names.enums then Raise(ObjectNotFound)
      else Ok(Emission(Hole, [Binding("enum_" + m, Text(env.names.enums[(s, m)]))], {}))
    case Parameter(n) =>
      if n !in env.names.supplied then Raise(UnresolvedReference)
      else Ok(Emission(Hole, [Binding(n, env.names.supplied[n])], {}))
  }

  function EmitOperands(env: Env, os: seq<Operand>): Outcome<Emission<seq<Scalar>>> {
    if os == [] then Ok(Emission([], [], {}))
    else Cons(EmitOperand(env, os[0]), EmitOperands(env, os[1..]))
  }

  function MaybeNot(negated: bool, c: Cond): Cond {
    if negated then SqlNot(c) else c
  }

  /** The left-nested chain a loop over the parts builds. */
  function Chain(j: Junction, acc: Cond, parts: seq<Cond>): Cond
    decreases parts
  {
    if parts == [] then acc else Chain(j, SqlChain(j, acc, parts[0]), parts[1..])
  }

  function EmitPredicate(env: Env, p: Predicate): Outcome<Emission<Cond>>
    decreases p, 0
  {
    match p
    case Comparison(op, l, r) =>
      var left :- EmitOperand(env, l);
      var right :- EmitOperand(env, r);
      Ok(Emission(SqlCompare(op, left.tree, right.tree), left.bound + right.bound, left.columns + right.columns))
    case NullTest(negated, o) =>
      var inner :- EmitOperand(env, o);
      Ok(Emission(MaybeNot(negated, SqlIsNull(inner.tree)), inner.bound, inner.columns))
    case Membership(negated, l, ms) =>
      // The members are bound before the left operand, although the text has them after it.
      var members :- EmitOperands(env, ms);
      var left :- EmitOperand(env, l);
      Ok(Emission(MaybeNot(negated, SqlIn(left.tree, members.tree)), members.bound + left.bound,
                  members.columns + left.columns))
    case BoolOp(connective, first, rest) =>
      var head :- EmitPredicate(env, first);
      var tail :- EmitPredicates(env, rest);
      var bound, columns := head.bound + tail.bound, head.columns + tail.columns;
      match connective
      case Negation =>
        if rest != [] then Raise(CompilerDefect) else Ok(Emission(SqlNot(SqlParen(head.tree)), bound, columns))
      case AllOf => Ok(Emission(Chain(Conj, head.tree, tail.tree), bound, columns))
      case AnyOf => Ok(Emission(SqlParen(Chain(Disj, head.tree, tail.tree)), bound, columns))
  }

  function EmitPredicates(env: Env, ps: seq<Predicate>): (r: Outcome<Emission<seq<Cond>>>)
    ensures r.Ok? ==> |r.value.tree| == |ps|
    decreases ps, 0
  {
    if ps == [] then Ok(Emission([], [], {}))
    else Cons(EmitPredicate(env, ps[0]), EmitPredicates(env, ps[1..]))
  }

  /** The conjunction of a non-empty clause. */
  function EmitAll(env: Env, ps: seq<Predicate>): Outcome<Emission<Cond>>
    requires ps != []
  {
    var parts :- EmitPredicates(env, ps);
    Ok(Emission(Chain(Conj, parts.tree[0], parts.tree[1..]), parts.bound, parts.columns))
  }

  function EmitClause(env: Env, ps: seq<Predicate>): Outcome<Emission<Option<Cond>>> {
    if ps == [] then Ok(Emission(None, [], {}))
    else var e :- EmitAll(env, ps); Ok(Emission(Some(e.tree), e.bound, e.columns))
  }

  function EmitMeasure(env: Env, m: Measure): Outcome<Emission<SqlMeasure>> {
    match m
    case Aggregate(op, operand) =>
      var fn, distinct := if op.CountDistinct? then Count else op, op.CountDistinct?;
      (match operand
       case None => Ok(Emission(SqlAggregate(fn, distinct, None), [], {}))
       case Some(c) =>
         var e :- EmitColumn(env, c);
         Ok(Emission(SqlAggregate(fn, distinct, Some(e.tree)), [], e.columns)))
    case Ratio(n, d, policy) =>
      var num :- EmitMeasure(env, n);
      var den :- EmitMeasure(env, d);
      Ok(Emission(SqlDiv(num.tree, if policy.NullOnZero? then SqlNullIfZero(den.tree) else den.tree),
                  [], num.columns + den.columns))
  }

  predicate UtcZone(zone: string) {
    |zone| == 3 && zone[0] in "uU" && zone[1] in "tT" && zone[2] in "cC"
  }

  function EmitBucket(env: Env, b: TimeBucket): Outcome<Emission<OutExpr>> {
    var e :- EmitColumn(env, b.column);
    Ok(Emission(DateTrunc(b.grain, if UtcZone(b.zone) then None else Some(b.zone), e.tree), [], e.columns))
  }

  /** The grouping expressions, under their output aliases, that the projections repeat. */
  function EmitBucketProjection(env: Env, b: Option<TimeBucket>): Outcome<Emission<seq<Projection>>> {
    if b.None? then Ok(Emission([], [], {}))
    else var e :- EmitBucket(env, b.value); Ok(Emission([Projection(e.tree, b.value.alias)], [], e.columns))
  }

  function EmitDimension(env: Env, alias: string, c: ColumnId): Outcome<Emission<Projection>> {
    var e :- EmitColumn(env, c);
    Ok(Emission(Projection(Plain(e.tree), alias), [], e.columns))
  }

  /** A grouping entry without a column stands for the time bucket, which is emitted apart. */
  function EmitDimensions(env: Env, gs: seq<(string, Option<ColumnId>)>): Outcome<Emission<seq<Projection>>> {
    if gs == [] then Ok(Emission([], [], {}))
    else if gs[0].1.None? then EmitDimensions(env, gs[1..])
    else Cons(EmitDimension(env, gs[0].0, gs[0].1.value), EmitDimensions(env, gs[1..]))
  }

  function EmitMeasured(env: Env, alias: string, m: Measure): Outcome<Emission<Projection>> {
    var e :- EmitMeasure(env, m);
    Ok(Emission(Projection(Measured(e.tree), alias), [], e.columns))
  }

  function EmitMeasures(env: Env, ms: seq<(string, Measure)>): Outcome<Emission<seq<Projection>>> {
    if ms == [] then Ok(Emission([], [], {}))
    else Cons(EmitMeasured(env, ms[0].0, ms[0].1), EmitMeasures(env, ms[1..]))
  }

  function EmitJoin(env: Env, join: Join): Outcome<Emission<SqlJoin>>
    requires join.predicates != []
  {
    var on :- EmitAll(env, join.predicates);
    Ok(Emission(SqlJoin(TableRef(join.right.physical, join.right.alias), on.tree, join.joinType), on.bound, on.columns))
  }

  predicate JoinsHavePredicates(joins: seq<Join>) {
    forall j :: j in joins ==> j.predicates != []
  }

  function EmitJoins(env: Env, joins: seq<Join>): Outcome<Emission<seq<SqlJoin>>>
    requires JoinsHavePredicates(joins)
  {
    if joins == [] then Ok(Emission([], [], {}))
    else
      assert forall j :: j in joins[1..] ==> j in joins;
      Cons(EmitJoin(env, joins[0]), EmitJoins(env, joins[1..]))
  }

  function ProjectedExprs(ps: seq<Projection>): (es: seq<OutExpr>)
    ensures |es| == |ps|
    ensures forall i :: 0 <= i < |ps| ==> es[i] == ps[i].expr
  {
    if ps == [] then [] else [ps[0].expr] + ProjectedExprs(ps[1..])
  }

  /** The projections, and the first of them that GROUP BY repeats. */
  function EmitOutput(env: Env, plan: LogicalPlan): Outcome<Emission<(seq<Projection>, seq<OutExpr>)>> {
    var bucket :- EmitBucketProjection(env, plan.timeBucket);
    var dims :- EmitDimensions(env, plan.groupBy);
    var measures :- EmitMeasures(env, plan.measures);
    var keys := bucket.tree + dims.tree;
    if keys + measures.tree == [] then Raise(CompilerDefect)
    else Ok(Emission((keys + measures.tree, ProjectedExprs(keys)), [], bucket.columns + dims.columns + measures.columns))
  }

  datatype Conditions = Conditions(joins: seq<SqlJoin>, where: Option<Cond>, having: Option<Cond>)

  function EmitConditions(env: Env, plan: LogicalPlan): Outcome<Emission<Conditions>>
    requires JoinsHavePredicates(plan.joins)
  {
    var joins :- EmitJoins(env, plan.joins);
    var where :- EmitClause(env, plan.where);
    var having :- EmitClause(env, plan.having);
    Ok(Emission(Conditions(joins.tree, where.tree, having.tree), joins.bound + where.bound + having.bound,
                joins.columns + where.columns + having.columns))
  }

  /** The whole statement, its clauses emitted in the order the compiler visits them. */
  function EmitSelect(env: Env, plan: LogicalPlan): Outcome<Emission<Select>>
    requires JoinsHavePredicates(plan.joins)
  {
    var output :- EmitOutput(env, plan);
    var conditions :- EmitConditions(env, plan);
    Ok(Emission(Statement(plan, output.tree, conditions.tree), conditions.bound, output.columns + conditions.columns))
  }

  function Statement(plan: LogicalPlan, output: (seq<Projection>, seq<OutExpr>), cs: Conditions): Select {
    Select(output.0, TableRef(plan.base.physical, plan.base.alias), cs.joins, cs.where, output.1, cs.having,
           plan.orderBy, plan.limit)
  }

  function AliasMap(scans: seq<Scan>): map<TableId, Alias> {
    if scans == [] then map[]
    else AliasMap(scans[..|scans| - 1])[scans[|scans| - 1].table := scans[|scans| - 1].alias]
  }

  /** Parameters the caller supplies, with the tenant of the trusted scope as a default. */
  function Supplied(parameters: map<string, Value>, scope: Scope): map<string, Value> {
    if "p_tenant" in parameters then parameters else parameters["p_tenant" := scope.tenant]
  }

  function EnvOf(bundle: Bundle, plan: LogicalPlan, scope: Scope, parameters: map<string, Value>): Env {
    Env(AliasMap(Scans(plan)), Names(Supplied(parameters, scope), bundle.enums), bundle.columns)
  }

  datatype CompiledQuery = CompiledQuery(
    sql: Select,
    values: seq<Value>,
    names: seq<string>,
    referencedTables: set<TableId>,
    referencedColumns: set<ColumnId>)

  function ScannedTables(plan: LogicalPlan): set<TableId> {
    set i | 0 <= i < |Scans(plan)| :: Scans(plan)[i].table
  }

  function BoundNames(bs: seq<Binding>): (ns: seq<string>)
    ensures |ns| == |bs|
    ensures forall i :: 0 <= i < |bs| ==> ns[i] == bs[i].name
  {
    if bs == [] then [] else [bs[0].name] + BoundNames(bs[1..])
  }

  function BoundValues(bs: seq<Binding>): (vs: seq<Value>)
    ensures |vs| == |bs|
    ensures forall i :: 0 <= i < |bs| ==> vs[i] == bs[i].value
  {
    if bs == [] then [] else [bs[0].value] + BoundValues(bs[1..])
  }

  function CompiledFrom(plan: LogicalPlan, e: Emission<Select>): CompiledQuery {
    CompiledQuery(e.tree, BoundValues(e.bound), BoundNames(e.bound),
                  TablesOf(e.columns) + ScannedTables(plan), e.columns)
  }

  // -- every emission binds one value per placeholder ------------------------------------------

  lemma {:induction false} ListFillsItsHoles(env: Env, os: seq<Operand>)
    requires EmitOperands(env, os).Ok?
    ensures var e := EmitOperands(env, os).value; ListHoles(e.tree) == |e.bound|
  {
    if os != [] {
      ListFillsItsHoles(env, os[1..]);
    }
  }

  lemma {:induction false} ChainHoles(j: Junction, acc: Cond, parts: seq<Cond>)
    ensures Holes(Chain(j, acc, parts)) == Holes(acc) + PartHoles(parts)
    decreases parts
  {
    if parts != [] {
      ChainHoles(j, SqlChain(j, acc, parts[0]), parts[1..]);
    }
  }

  function PartHoles(cs: seq<Cond>): nat {
    if cs == [] then 0 else Holes(cs[0]) + PartHoles(cs[1..])
  }

  lemma {:induction false} PredicateFillsItsHoles(env: Env, p: Predicate)
    requires EmitPredicate(env, p).Ok?
    ensures var e := EmitPredicate(env, p).value; Holes(e.tree) == |e.bound|
    decreases p, 0
  {
    match p
    case Comparison(_, l, r) =>
    case NullTest(_, o) =>
    case Membership(_, l, ms) => ListFillsItsHoles(env, ms);
    case BoolOp(connective, first, rest) =>
      PredicateFillsItsHoles(env, first);
      PredicatesFillTheirHoles(env, rest);
      var head, tail := EmitPredicate(env, first).value, EmitPredicates(env, rest).value;
      if !connective.Negation? {
        ChainHoles(if connective.AllOf? then Conj else Disj, head.tree, tail.tree);
      }
  }

  lemma {:induction false} PredicatesFillTheirHoles(env: Env, ps: seq<Predicate>)
    requires EmitPredicates(env, ps).Ok?
    ensures var e := EmitPredicates(env, ps).value; PartHoles(e.tree) == |e.bound|
    decreases ps, 0
  {
    if ps != [] {
      PredicateFillsItsHoles(env, ps[0]);
      PredicatesFillTheirHoles(env, ps[1..]);
    }
  }

  lemma ClauseFillsItsHoles(env: Env, ps: seq<Predicate>)
    requires EmitClause(env, ps).Ok?
    ensures var e := EmitClause(env, ps).value; CondHoles(e.tree) == |e.bound|
    ensures ps != [] ==> var e := EmitAll(env, ps).value; Holes(e.tree) == |e.bound|
  {
    if ps != [] {
      PredicatesFillTheirHoles(env, ps);
      var parts := EmitPredicates(env, ps).value;
      ChainHoles(Conj, parts.tree[0], parts.tree[1..]);
    }
  }

  lemma {:induction false} JoinsFillTheirHoles(env: Env, joins: seq<Join>)
    requires JoinsHavePredicates(joins)
    requires EmitJoins(env, joins).Ok?
    ensures var e := EmitJoins(env, joins).value; JoinHoles(e.tree) == |e.bound| && |e.tree| == |joins|
  {
    if joins != [] {
      assert forall j :: j in joins[1..] ==> j in joins;
      ClauseFillsItsHoles(env, joins[0].predicates);
      JoinsFillTheirHoles(env, joins[1..]);
    }
  }

  /** The compiler's closing count check cannot fail. */
  lemma PlaceholdersMatchValues(env: Env, plan: LogicalPlan)
    requires JoinsHavePredicates(plan.joins)
    requires EmitSelect(env, plan).Ok?
    ensures var e := EmitSelect(env, plan).value; StatementHoles(e.tree) == |e.bound|
  {
    JoinsFillTheirHoles(env, plan.joins);
    ClauseFillsItsHoles(env, plan.where);
    ClauseFillsItsHoles(env, plan.having);
  }
}
