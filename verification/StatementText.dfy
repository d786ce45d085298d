/** What the statement parsed back from the emitted text carries: its columns, nodes, placeholders and conjuncts. */
module StatementTexts {
  import opened Errors
  import opened Values
  import opened Expressions
  import opened Catalog
  import opened SqlTree
  import opened SqlText
  import opened Quotients
  import opened Plans
  import opened SqlQuery
  import opened Emissions
  import opened CompilerMeaning
  import opened QueryMeaning
  import opened Lowering
  import opened Scoping
  import opened Validators

  /** The qualified columns that a set of catalog columns is written as. */
  function Rendered(env: Env, cs: set<ColumnId>): set<(Alias, string)> {
    set c | c in cs && c.table in env.aliasOf :: (env.aliasOf[c.table], c.name)
  }

  lemma RenderedUnion(env: Env, a: set<ColumnId>, b: set<ColumnId>)
    ensures Rendered(env, a + b) == Rendered(env, a) + Rendered(env, b)
  {
  }

  /** Reading the written columns through inverse aliases gives the catalog columns back. */
  lemma RenderedResolves(env: Env, aliases: map<Alias, TableId>, cs: set<ColumnId>)
    requires forall t :: t in env.aliasOf ==> env.aliasOf[t] in aliases && aliases[env.aliasOf[t]] == t
    requires forall c :: c in cs ==> c.table in env.aliasOf
    ensures Resolved(aliases, Rendered(env, cs)) == cs
  {
    forall c | c in cs
      ensures c in Resolved(aliases, Rendered(env, cs))
    {
      assert (env.aliasOf[c.table], c.name) in Rendered(env, cs);
    }
  }

  // -- columns -----------------------------------------------------------------------------------

  lemma OperandText(env: Env, o: Operand)
    requires Named(env) && EmitOperand(env, o).Ok?
    ensures var e := EmitOperand(env, o).value;
            ScalarColumns(e.tree) == Rendered(env, OperandColumns(o)) && e.columns == OperandColumns(o)
  {
  }

  lemma {:induction false} OperandsText(env: Env, os: seq<Operand>)
    requires Named(env) && EmitOperands(env, os).Ok?
    ensures var e := EmitOperands(env, os).value;
            ListColumns(e.tree) == Rendered(env, MemberColumns(os)) && e.columns == MemberColumns(os)
  {
    if os != [] {
      OperandText(env, os[0]);
      OperandsText(env, os[1..]);
    }
  }

  function PartColumns(cs: seq<Cond>): set<(Alias, string)> {
    if cs == [] then {} else CondColumns(cs[0]) + PartColumns(cs[1..])
  }

  lemma {:induction false} ChainColumns(j: Junction, acc: Cond, parts: seq<Cond>)
    ensures CondColumns(Chain(j, acc, parts)) == CondColumns(acc) + PartColumns(parts)
    decreases parts
  {
    if parts != [] {
      ChainColumns(j, SqlChain(j, acc, parts[0]), parts[1..]);
    }
  }

  /** The emitted condition mentions exactly the columns of the predicate. */
  lemma {:induction false} PredicateText(env: Env, p: Predicate)
    requires Named(env) && EmitPredicate(env, p).Ok?
    ensures var e := EmitPredicate(env, p).value;
            CondColumns(e.tree) == Rendered(env, ColumnsIn(p)) && e.columns == ColumnsIn(p)
    decreases p, 0
  {
    hide Rendered, Named;
    match p
    case Comparison(_, l, r) =>
      OperandText(env, l);
      OperandText(env, r);
      RenderedUnion(env, OperandColumns(l), OperandColumns(r));
    case NullTest(_, o) => OperandText(env, o);
    case Membership(_, l, ms) =>
      OperandText(env, l);
      OperandsText(env, ms);
      RenderedUnion(env, OperandColumns(l), MemberColumns(ms));
    case BoolOp(connective, first, rest) =>
      PredicateText(env, first);
      PredicatesText(env, rest);
      RenderedUnion(env, ColumnsIn(first), ColumnsInAll(rest));
      var head, tail := EmitPredicate(env, first).value.tree, EmitPredicates(env, rest).value.tree;
      if !connective.Negation? {
        ChainColumns(if connective.AllOf? then Conj else Disj, head, tail);
      } else {
        NothingRendered(env);
      }
  }

  lemma NothingRendered(env: Env)
    ensures Rendered(env, {}) == {}
  {
  }

  lemma {:induction false} PredicatesText(env: Env, ps: seq<Predicate>)
    requires Named(env) && EmitPredicates(env, ps).Ok?
    ensures var e := EmitPredicates(env, ps).value;
            PartColumns(e.tree) == Rendered(env, ColumnsInAll(ps)) && e.columns == ColumnsInAll(ps)
    decreases ps, 0
  {
    hide Named;
    if ps != [] {
      PredicateText(env, ps[0]);
      PredicatesText(env, ps[1..]);
      RenderedUnion(env, ColumnsIn(ps[0]), ColumnsInAll(ps[1..]));
    }
  }

  /** A clause read back from its text: its columns, placeholders and nodes. */
  lemma ClauseReads(env: Env, ps: seq<Predicate>)
    requires Named(env) && ps != [] && EmitAll(env, ps).Ok?
    ensures var e, read := EmitAll(env, ps).value, ReadBack(EmitAll(env, ps).value.tree);
            && read == Ok(Regroup(e.tree)) && Holes(read.value) == |e.bound|
            && CondColumns(read.value) == Rendered(env, ColumnsInAll(ps)) && e.columns == ColumnsInAll(ps)
            && CondNodes(read.value) <= Allowed
  {
    hide Named, Rendered;
    var e, parts := EmitAll(env, ps).value, EmitPredicates(env, ps).value;
    ClauseReadsBack(env, ps);
    ClauseFillsItsHoles(env, ps);
    PredicatesText(env, ps);
    ChainColumns(Conj, parts.tree[0], parts.tree[1..]);
    RegroupKeepsColumns(e.tree);
    ConditionsAllowed(Regroup(e.tree));
  }

  lemma OptionalReads(env: Env, ps: seq<Predicate>)
    requires Named(env) && EmitClause(env, ps).Ok?
    ensures var e, read := EmitClause(env, ps).value, ReadBackOptional(EmitClause(env, ps).value.tree);
            && read.Ok? && CondHoles(read.value) == |e.bound|
            && ClauseText(read.value) == Rendered(env, ColumnsInAll(ps)) && e.columns == ColumnsInAll(ps)
            && ClauseNodes(read.value) <= Allowed
  {
    if ps != [] {
      ClauseReads(env, ps);
    }
  }

  lemma {:induction false} JoinsRead(env: Env, joins: seq<Join>)
    requires Named(env) && JoinsHavePredicates(joins) && EmitJoins(env, joins).Ok?
    ensures var e, read := EmitJoins(env, joins).value, ReadBackJoins(EmitJoins(env, joins).value.tree);
            && read.Ok? && |read.value| == |joins| && JoinHoles(read.value) == |e.bound|
            && OnText(read.value) == Rendered(env, OnColumns(joins)) && e.columns == OnColumns(joins)
            && OnNodes(read.value) <= Allowed
    ensures var read := ReadBackJoins(EmitJoins(env, joins).value.tree);
            forall i :: 0 <= i < |joins| ==>
              && read.value[i].table == TableRef(joins[i].right.physical, joins[i].right.alias)
              && EmitAll(env, joins[i].predicates).Ok?
              && read.value[i].on == Regroup(EmitAll(env, joins[i].predicates).value.tree)
  {
    hide Named, Rendered;
    if joins == [] {
      NothingRendered(env);
    } else {
      assert joins[0] in joins && forall j :: j in joins[1..] ==> j in joins;
      var ps := joins[0].predicates;
      JoinsRead(env, joins[1..]);
      ClauseReads(env, ps);
      RenderedUnion(env, ColumnsInAll(ps), OnColumns(joins[1..]));
      var rest := ReadBackJoins(EmitJoins(env, joins[1..]).value.tree).value;
      var read := ReadBackJoins(EmitJoins(env, joins).value.tree).value;
      assert read[1..] == rest;
      forall i | 0 <= i < |joins|
        ensures read[i].table == TableRef(joins[i].right.physical, joins[i].right.alias)
        ensures EmitAll(env, joins[i].predicates).Ok?
        ensures read[i].on == Regroup(EmitAll(env, joins[i].predicates).value.tree)
      {
        if i > 0 {
          assert read[i] == rest[i - 1] && joins[i] == joins[1..][i - 1];
        }
      }
    }
  }

  // -- nodes ------------------------------------------------------------------------------------------

  lemma {:induction false} ListAllowed(ss: seq<Scalar>)
    ensures ListNodes(ss) <= Allowed
  {
    if ss != [] {
      ListAllowed(ss[1..]);
    }
  }

  lemma {:induction false} ConditionsAllowed(c: Cond)
    ensures CondNodes(c) <= Allowed
  {
    match c
    case SqlIn(l, ms) => ListAllowed(ms);
    case SqlNot(a) => ConditionsAllowed(a);
    case SqlChain(_, l, r) => ConditionsAllowed(l); ConditionsAllowed(r);
    case SqlParen(a) => ConditionsAllowed(a);
    case _ =>
  }

  /** Some ratio of the measure answers NULL on a zero denominator. */
  predicate AsksNull(m: Measure) {
    m.Ratio? && (m.policy.NullOnZero? || AsksNull(m.numerator) || AsksNull(m.denominator))
  }

  predicate InnerDistinct(m: Measure) {
    match m
    case Aggregate(op, _) => op.CountDistinct?
    case Ratio(n, d, _) => InnerDistinct(n) || InnerDistinct(d)
  }

  lemma {:induction false} MeasureReads(env: Env, m: Measure)
    requires Named(env) && EmitMeasure(env, m).Ok?
    ensures var e := EmitMeasure(env, m).value;
            && MeasureText(e.tree) == Rendered(env, MeasureColumns(m)) && e.columns == MeasureColumns(m)
            && (MeasureNodes(e.tree) <= Allowed <==> !AsksNull(m))
            && (HasDistinct(e.tree) <==> InnerDistinct(m))
  {
    match m
    case Aggregate(op, None) =>
    case Aggregate(op, Some(c)) =>
    case Ratio(n, d, policy) =>
      MeasureReads(env, n);
      MeasureReads(env, d);
      RenderedUnion(env, MeasureColumns(n), MeasureColumns(d));
      RatioNodes(EmitMeasure(env, n).value.tree, EmitMeasure(env, d).value.tree);
  }

  lemma RatioNodes(l: SqlMeasure, r: SqlMeasure)
    ensures MeasureNodes(SqlDiv(l, r)) <= Allowed <==> MeasureNodes(l) <= Allowed && MeasureNodes(r) <= Allowed
    ensures !(MeasureNodes(SqlDiv(l, SqlNullIfZero(r))) <= Allowed)
  {
    assert NullifNode in MeasureNodes(SqlNullIfZero(r));
    assert NullifNode in MeasureNodes(SqlDiv(l, SqlNullIfZero(r)));
    assert NullifNode !in Allowed;
  }

  // -- grouping quotients to the left changes none of this ------------------------------------------------

  lemma {:induction false} RegroupedMeasure(m: SqlMeasure)
    ensures var r := RegroupMeasure(m);
            MeasureText(r) == MeasureText(m) && MeasureNodes(r) == MeasureNodes(m) && (HasDistinct(r) <==> HasDistinct(m))
    decreases m, 0
  {
    match m
    case SqlAggregate(_, _, _) =>
    case SqlDiv(l, r) => RegroupedMeasure(l); GraftedMeasure(RegroupMeasure(l), r);
    case SqlNullIfZero(a) => RegroupedMeasure(a);
  }

  lemma {:induction false} GraftedMeasure(acc: SqlMeasure, m: SqlMeasure)
    ensures var r := GraftDivisor(acc, m);
            && MeasureText(r) == MeasureText(acc) + MeasureText(m)
            && MeasureNodes(r) == {DivNode} + MeasureNodes(acc) + MeasureNodes(m)
            && (HasDistinct(r) <==> HasDistinct(acc) || HasDistinct(m))
    decreases m, 1
  {
    if m.SqlDiv? {
      GraftedMeasure(acc, m.l);
      GraftedMeasure(GraftDivisor(acc, m.l), m.r);
    } else {
      RegroupedMeasure(m);
    }
  }

  lemma {:induction false} RegroupedProjections(ps: seq<Projection>)
    ensures var rs := RegroupProjections(ps);
            && ProjectionText(rs) == ProjectionText(ps) && ProjectionNodes(rs) == ProjectionNodes(ps)
            && Plainly(rs) == Plainly(ps) && OutputNames(rs) == OutputNames(ps)
  {
    if ps != [] {
      RegroupedProjections(ps[1..]);
      var rs := RegroupProjections(ps);
      assert rs[1..] == RegroupProjections(ps[1..]);
      if ps[0].expr.Measured? {
        RegroupedMeasure(ps[0].expr.m);
      }
      assert OutText(rs[0].expr) == OutText(ps[0].expr) && OutNodes(rs[0].expr) == OutNodes(ps[0].expr);
    }
  }

  // -- the output ------------------------------------------------------------------------------------------

  /** What a list of key projections carries. */
  predicate KeysCarry(env: Env, keys: seq<Projection>, cs: set<ColumnId>) {
    && ProjectionText(keys) == Rendered(env, cs) && ProjectionNodes(keys) <= Allowed
    && (forall p :: p in keys ==> !p.expr.Measured?)
  }

  lemma {:induction false} DimensionsRead(env: Env, gs: seq<(string, Option<ColumnId>)>)
    requires Named(env) && EmitDimensions(env, gs).Ok?
    ensures var e := EmitDimensions(env, gs).value;
            KeysCarry(env, e.tree, GroupColumns(gs)) && e.columns == GroupColumns(gs)
  {
    if gs != [] {
      DimensionsRead(env, gs[1..]);
      assert GroupColumns(gs) == (if gs[0].1.Some? then {gs[0].1.value} else {}) + GroupColumns(gs[1..]) by {
        assert forall g :: g in gs <==> g == gs[0] || g in gs[1..];
      }
      if gs[0].1.Some? {
        var c, rest := gs[0].1.value, EmitDimensions(env, gs[1..]).value.tree;
        var p := EmitDimension(env, gs[0].0, c).value.tree;
        assert ([p] + rest)[1..] == rest;
        assert Rendered(env, {c}) == OutText(p.expr);
        RenderedUnion(env, {c}, GroupColumns(gs[1..]));
      }
    }
  }

  lemma BucketRead(env: Env, b: Option<TimeBucket>)
    requires Named(env) && EmitBucketProjection(env, b).Ok?
    ensures var e := EmitBucketProjection(env, b).value;
            KeysCarry(env, e.tree, BucketColumns(b)) && e.columns == BucketColumns(b)
            && OutputNames(e.tree) == (if b.Some? then [b.value.alias] else [])
  {
    if b.Some? {
      var p := EmitBucketProjection(env, b).value.tree[0];
      assert [p][1..] == [] && ProjectionText([]) == {} && ProjectionNodes([]) == {};
      assert ProjectionText([p]) == OutText(p.expr) + ProjectionText([p][1..]);
      assert ProjectionNodes([p]) == OutNodes(p.expr) + ProjectionNodes([p][1..]);
      assert OutputNames([p]) == [p.alias] + OutputNames([p][1..]);
    }
  }

  lemma {:induction false} ProjectionsConcat(a: seq<Projection>, b: seq<Projection>)
    ensures ProjectionText(a + b) == ProjectionText(a) + ProjectionText(b)
    ensures ProjectionNodes(a + b) == ProjectionNodes(a) + ProjectionNodes(b)
    ensures Plainly(a + b) == Plainly(a) + Plainly(b)
    ensures OutputNames(a + b) == OutputNames(a) + OutputNames(b)
  {
    if a == [] {
      assert a + b == b;
    } else {
      var ab := a + b;
      assert ab[1..] == a[1..] + b && ab[0] == a[0];
      ProjectionsConcat(a[1..], b);
      assert ProjectionText(ab) == OutText(ab[0].expr) + ProjectionText(ab[1..]);
      assert ProjectionNodes(ab) == OutNodes(ab[0].expr) + ProjectionNodes(ab[1..]);
      assert OutputNames(ab) == [a[0].alias] + (OutputNames(a[1..]) + OutputNames(b));
    }
  }

  lemma {:induction false} PlainKeys(keys: seq<Projection>)
    requires forall p :: p in keys ==> !p.expr.Measured?
    ensures Plainly(keys) == |keys|
    ensures GroupText(ProjectedExprs(keys)) == ProjectionText(keys) && GroupNodes(ProjectedExprs(keys)) == ProjectionNodes(keys)
  {
    if keys != [] {
      assert keys[0] in keys && forall p :: p in keys[1..] ==> p in keys;
      PlainKeys(keys[1..]);
      assert ProjectedExprs(keys)[1..] == ProjectedExprs(keys[1..]);
    }
  }

  /** The one measure of a bound plan. */
  lemma MeasureRead(env: Env, alias: string, m: Measure)
    requires Named(env) && EmitMeasures(env, [(alias, m)]).Ok?
    ensures EmitMeasure(env, m).Ok?
    ensures var e := EmitMeasures(env, [(alias, m)]).value;
            && e.tree == [Projection(Measured(EmitMeasure(env, m).value.tree), alias)] && e.columns == MeasureColumns(m)
            && ProjectionText(e.tree) == Rendered(env, MeasureColumns(m))
            && (ProjectionNodes(e.tree) <= Allowed <==> !AsksNull(m))
            && Plainly(e.tree) == 0 && OutputNames(e.tree) == [alias]
  {
    var ms := [(alias, m)];
    assert ms[1..] == [];
    assert EmitMeasures(env, ms[1..]) == Ok(Emission([], [], {}));
    MeasureReads(env, m);
    var p := Projection(Measured(EmitMeasure(env, m).value.tree), alias);
    assert EmitMeasures(env, ms).value.tree == [p] + [] == [p];
    assert [p][1..] == [] && ProjectionText([]) == {} && ProjectionNodes([]) == {} && Plainly([]) == 0 && OutputNames([]) == [];
    assert ProjectionText([p]) == OutText(p.expr) + ProjectionText([p][1..]);
    assert ProjectionNodes([p]) == OutNodes(p.expr) + ProjectionNodes([p][1..]);
    assert Plainly([p]) == 0 + Plainly([p][1..]);
    assert OutputNames([p]) == [p.alias] + OutputNames([p][1..]);
  }

  lemma {:induction false} DimensionNames(env: Env, gs: seq<(string, Option<ColumnId>)>)
    requires EmitDimensions(env, gs).Ok?
    ensures OutputNames(EmitDimensions(env, gs).value.tree) == ColumnAliases(gs)
  {
    if gs != [] {
      DimensionNames(env, gs[1..]);
      if gs[0].1.Some? {
        var p, rest := EmitDimension(env, gs[0].0, gs[0].1.value).value.tree, EmitDimensions(env, gs[1..]).value.tree;
        assert ([p] + rest)[1..] == rest;
      }
    }
  }

  function ColumnAliases(gs: seq<(string, Option<ColumnId>)>): seq<string> {
    if gs == [] then [] else (if gs[0].1.Some? then [gs[0].0] else []) + ColumnAliases(gs[1..])
  }

  /** The projections and GROUP BY of a plan with one measure. */
  lemma OutputReads(env: Env, plan: LogicalPlan)
    requires Named(env) && EmitOutput(env, plan).Ok? && |plan.measures| == 1
    ensures EmitMeasure(env, plan.measures[0].1).Ok?
    ensures var e := EmitOutput(env, plan).value;
            var m := plan.measures[0].1;
            var cs := BucketColumns(plan.timeBucket) + GroupColumns(plan.groupBy) + MeasureColumns(m);
            && e.columns == cs && ProjectionText(e.tree.0) + GroupText(e.tree.1) == Rendered(env, cs)
            && (ProjectionNodes(e.tree.0) + GroupNodes(e.tree.1) <= Allowed <==> !AsksNull(m))
            && Plainly(e.tree.0) == |e.tree.1|
            && e.tree.0 != [] && e.tree.0[|e.tree.0| - 1] == Projection(Measured(EmitMeasure(env, m).value.tree), plan.measures[0].0)
            && (forall p :: p in e.tree.0[..|e.tree.0| - 1] ==> !p.expr.Measured?)
            && OutputNames(e.tree.0) == (if plan.timeBucket.Some? then [plan.timeBucket.value.alias] else [])
                                        + ColumnAliases(plan.groupBy) + [plan.measures[0].0]
  {
    hide Named, Rendered, AsksNull, EmitDimensions, EmitMeasure, ProjectionText, ProjectionNodes, OutputNames, GroupText, GroupNodes,
      ColumnAliases, Allowed, GroupColumns, MeasureColumns;
    var bucket, dims, ms := EmitBucketProjection(env, plan.timeBucket).value, EmitDimensions(env, plan.groupBy).value,
      EmitMeasures(env, plan.measures).value;
    var alias, m := plan.measures[0].0, plan.measures[0].1;
    assert plan.measures == [(alias, m)];
    BucketRead(env, plan.timeBucket);
    DimensionsRead(env, plan.groupBy);
    DimensionNames(env, plan.groupBy);
    MeasureRead(env, alias, m);
    var keys := bucket.tree + dims.tree;
    ProjectionsConcat(bucket.tree, dims.tree);
    ProjectionsConcat(keys, ms.tree);
    PlainKeys(keys);
    RenderedUnion(env, BucketColumns(plan.timeBucket), GroupColumns(plan.groupBy));
    RenderedUnion(env, BucketColumns(plan.timeBucket) + GroupColumns(plan.groupBy), MeasureColumns(m));
    var all := keys + ms.tree;
    assert all[..|all| - 1] == keys && all[|all| - 1] == ms.tree[0];
  }

  // -- conjuncts ----------------------------------------------------------------------------------------------

  /** A predicate whose emitted text is one conjunct. */
  predicate OneConjunct(p: Predicate) {
    p.Comparison? || (p.BoolOp? && p.connective.AnyOf?)
  }

  lemma {:induction false} ChainConjuncts(acc: Cond, parts: seq<Cond>)
    requires forall c :: c in parts ==> |Conjuncts(c)| == 1
    ensures |Conjuncts(Chain(Conj, acc, parts))| == |Conjuncts(acc)| + |parts|
    decreases parts
  {
    if parts != [] {
      assert parts[0] in parts && forall c :: c in parts[1..] ==> c in parts;
      ChainConjuncts(SqlChain(Conj, acc, parts[0]), parts[1..]);
    }
  }

  lemma {:induction false} OneEach(env: Env, ps: seq<Predicate>)
    requires EmitPredicates(env, ps).Ok? && forall p :: p in ps ==> OneConjunct(p)
    ensures forall c :: c in EmitPredicates(env, ps).value.tree ==> |Conjuncts(c)| == 1
  {
    if ps != [] {
      assert ps[0] in ps && forall p :: p in ps[1..] ==> p in ps;
      OneEach(env, ps[1..]);
    }
  }

  /** The parsed ON clause has one top-level conjunct per predicate of the join. */
  lemma OnConjuncts(env: Env, ps: seq<Predicate>)
    requires ps != [] && EmitAll(env, ps).Ok? && forall p :: p in ps ==> OneConjunct(p)
    ensures |Conjuncts(Regroup(EmitAll(env, ps).value.tree))| == |ps|
  {
    var parts := EmitPredicates(env, ps).value.tree;
    OneEach(env, ps);
    assert forall c :: c in parts[1..] ==> c in parts;
    ChainConjuncts(parts[0], parts[1..]);
    EmittedClauseShape(env, ps);
    RegroupKeepsConjuncts(EmitAll(env, ps).value.tree);
  }

  lemma {:induction false} LoweredAreOneConjunct(ps: seq<JoinPredicate>)
    requires LowerJoinPredicates(ps).Ok?
    ensures forall p :: p in LowerJoinPredicates(ps).value ==> OneConjunct(p)
  {
    if ps != [] {
      LoweredAreOneConjunct(ps[1..]);
    }
  }

  // -- the whole statement ---------------------------------------------------------------------------------------

  /** The parsed statement of a compiled plan with one measure, gate by gate. */
  lemma StatementReads(env: Env, plan: LogicalPlan)
    requires Named(env) && JoinsHavePredicates(plan.joins) && EmitSelect(env, plan).Ok? && |plan.measures| == 1
    ensures Reparse(EmitSelect(env, plan).value.tree).Ok? && EmitOutput(env, plan).Ok? && EmitMeasure(env, plan.measures[0].1).Ok?
    ensures var e, s := EmitSelect(env, plan).value, Reparse(EmitSelect(env, plan).value.tree).value;
            && e.columns == PlanColumns(plan) && StatementText(s) == Rendered(env, PlanColumns(plan))
            && (StatementNodes(s) <= Allowed <==> !AsksNull(plan.measures[0].1))
            && StatementHoles(s) == |e.bound|
            && ClauseText(s.where) == Rendered(env, ColumnsInAll(plan.where))
            && ClauseText(s.having) == Rendered(env, ColumnsInAll(plan.having))
            && s.from == TableRef(plan.base.physical, plan.base.alias) && |s.joins| == |plan.joins|
            && s.order == plan.orderBy && s.group == EmitOutput(env, plan).value.tree.1
            && s.projections == RegroupProjections(EmitOutput(env, plan).value.tree.0)
    ensures var s := Reparse(EmitSelect(env, plan).value.tree).value;
            forall i :: 0 <= i < |plan.joins| ==>
              && s.joins[i].table == TableRef(plan.joins[i].right.physical, plan.joins[i].right.alias)
              && EmitAll(env, plan.joins[i].predicates).Ok?
              && s.joins[i].on == Regroup(EmitAll(env, plan.joins[i].predicates).value.tree)
  {
    hide Named, Rendered, ReadBackJoins, ReadBackOptional, EmitJoins, EmitClause, EmitOutput, AsksNull, ColumnsInAll, OnColumns,
      MeasuredColumns, BucketColumns, GroupColumns, EmitMeasure, ReadBackProjections, RegroupProjections;
    JoinsRead(env, plan.joins);
    OptionalReads(env, plan.where);
    OptionalReads(env, plan.having);
    OutputReads(env, plan);
    OneMeasured(plan);
    ProjectionsReadBack(EmitOutput(env, plan).value.tree.0);
    RegroupedProjections(EmitOutput(env, plan).value.tree.0);
    var m := plan.measures[0].1;
    var out := BucketColumns(plan.timeBucket) + GroupColumns(plan.groupBy) + MeasureColumns(m);
    var on, where, having := OnColumns(plan.joins), ColumnsInAll(plan.where), ColumnsInAll(plan.having);
    assert PlanColumns(plan) == out + on + where + having;
    RenderedUnion(env, out, on);
    RenderedUnion(env, out + on, where);
    RenderedUnion(env, out + on + where, having);
  }

  lemma OneMeasured(plan: LogicalPlan)
    requires |plan.measures| == 1
    ensures MeasuredColumns(plan.measures) == MeasureColumns(plan.measures[0].1)
  {
    assert plan.measures[1..] == [];
    assert MeasuredColumns(plan.measures[1..]) == {};
  }
}
