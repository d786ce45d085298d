/**
  The deterministic compiler. The classes update their state in place, the two lists of
  the parameter binder and the growing set of referenced columns; each method is proved to do
  what the emission functions say.
*/
module Compiler {
  import opened Errors
  import opened Values
  import opened Expressions
  import opened Catalog
  import opened SqlTree
  import opened Plans
  import opened SqlQuery
  import opened Emissions

  function Zip(names: seq<string>, values: seq<Value>): (bs: seq<Binding>)
    requires |names| == |values|
    ensures BoundNames(bs) == names && BoundValues(bs) == values
  {
    seq(|names|, i requires 0 <= i < |names| => Binding(names[i], values[i]))
  }

  /** One emission after another adds what the two add together. */
  lemma AfterBoth<T, U, V>(bound: seq<Binding>, columns: set<ColumnId>, d: Emission<T>, e: Emission<U>, f: Emission<V>)
    requires f.bound == d.bound + e.bound && f.columns == d.columns + e.columns
    ensures bound + d.bound + e.bound == bound + f.bound
    ensures columns + d.columns + e.columns == columns + f.columns
  {
    assert bound + (d.bound + e.bound) == bound + d.bound + e.bound;
    assert columns + (d.columns + e.columns) == columns + d.columns + e.columns;
  }

  lemma AfterNothing(bound: seq<Binding>, columns: set<ColumnId>)
    ensures bound + [] == bound && columns + {} == columns
  {
  }

  /** Collects bound parameters in emission order. */
  class ParamBinder {
    var values: seq<Value>
    var names: seq<string>

    ghost predicate Valid()
      reads this
    {
      |names| == |values|
    }

    ghost function Contents(): seq<Binding>
      reads this
      requires Valid()
    {
      Zip(names, values)
    }

    constructor ()
      ensures Valid() && Contents() == []
    {
      values, names := [], [];
    }

    method Bind(name: string, value: Value) returns (p: Scalar)
      requires Valid()
      modifies this
      ensures Valid() && Contents() == old(Contents()) + [Binding(name, value)]
      ensures p == Hole
    {
      names := names + [name];
      values := values + [value];
      p := Hole;
    }
  }

  class Ctx {
    const env: Env
    const binder: ParamBinder
    var referenced: set<ColumnId>

    constructor (env: Env, binder: ParamBinder)
      ensures this.env == env && this.binder == binder && referenced == {}
    {
      this.env, this.binder, referenced := env, binder, {};
    }

    method Column(c: ColumnId) returns (r: Outcome<Scalar>)
      modifies this
      ensures match EmitColumn(env, c)
              case Raise(code) => r == Raise(code)
              case Ok(e) => r == Ok(e.tree) && referenced == old(referenced) + e.columns
    {
      if c.table !in env.aliasOf {
        return Raise(UnresolvedReference);
      }
      if c !in env.columns {
        return Raise(ObjectNotFound);
      }
      referenced := referenced + {c};
      return Ok(Col(env.aliasOf[c.table], env.columns[c].name));
    }

    /** The state after emitting `e` on top of the bindings and columns there were before. */
    ghost predicate Extends<T>(bound: seq<Binding>, columns: set<ColumnId>, e: Emission<T>)
      reads this, binder
    {
      binder.Valid() && binder.Contents() == bound + e.bound && referenced == columns + e.columns
    }

    method Operand(o: Operand) returns (r: Outcome<Scalar>)
      requires binder.Valid()
      modifies this, binder
      ensures match EmitOperand(env, o)
              case Raise(code) => r == Raise(code)
              case Ok(e) => r == Ok(e.tree) && Extends(old(binder.Contents()), old(referenced), e)
    {
      match o
      case Column(c) =>
        r := Column(c);
      case Literal(v) =>
        var p := binder.Bind("literal", v);
        r := Ok(p);
      case Enum(s, m) =>
        if (s, m) !in env.names.enums {
          return Raise(ObjectNotFound);
        }
        var p := binder.Bind("enum_" + m, Text(env.names.enums[(s, m)]));
        r := Ok(p);
      case Parameter(n) =>
        if n !in env.names.supplied {
          return Raise(UnresolvedReference);
        }
        var p := binder.Bind(n, env.names.supplied[n]);
        r := Ok(p);
    }

    method Operands(os: seq<Operand>) returns (r: Outcome<seq<Scalar>>)
      requires binder.Valid()
      modifies this, binder
      ensures match EmitOperands(env, os)
              case Raise(code) => r == Raise(code)
              case Ok(e) => r == Ok(e.tree) && Extends(old(binder.Contents()), old(referenced), e)
    {
      var parts: seq<Scalar> := [];
      ghost var done := Emission(parts, [], {});
      AfterNothing(binder.Contents(), referenced);
      ContinueStart(EmitOperands(env, os));
      assert os[0..] == os;
      for i := 0 to |os|
        invariant done.tree == parts
        invariant Extends(old(binder.Contents()), old(referenced), done)
        invariant EmitOperands(env, os) == Continue(done, EmitOperands(env, os[i..]))
      {
        var part :- Operand(os[i]);
        parts := parts + [part];
        ghost var e := EmitOperand(env, os[i]).value;
        ContinueStep(done, e, EmitOperands(env, os[i + 1..]));
        assert os[i..][1..] == os[i + 1..];
        AfterBoth(old(binder.Contents()), old(referenced), done, e, Append(done, e));
        done := Append(done, e);
      }
      ContinueEnd(done);
      r := Ok(parts);
    }

    method Predicate(p: Predicate) returns (r: Outcome<Cond>)
      requires binder.Valid()
      modifies this, binder
      ensures match EmitPredicate(env, p)
              case Raise(code) => r == Raise(code)
              case Ok(e) => r == Ok(e.tree) && Extends(old(binder.Contents()), old(referenced), e)
      decreases p, 0
    {
      ghost var bound, columns := binder.Contents(), referenced;
      match p
      case Comparison(op, l, r') =>
        var left :- Operand(l);
        var right :- Operand(r');
        AfterBoth(bound, columns, EmitOperand(env, l).value, EmitOperand(env, r').value, EmitPredicate(env, p).value);
        return Ok(SqlCompare(op, left, right));
      case NullTest(negated, o) =>
        var operand :- Operand(o);
        return Ok(MaybeNot(negated, SqlIsNull(operand)));
      case Membership(negated, l, ms) =>
        var members :- Operands(ms);
        var left :- Operand(l);
        AfterBoth(bound, columns, EmitOperands(env, ms).value, EmitOperand(env, l).value, EmitPredicate(env, p).value);
        return Ok(MaybeNot(negated, SqlIn(left, members)));
      case BoolOp(connective, first, rest) =>
        var head :- Predicate(first);
        var tail :- Predicates(rest);
        if connective.Negation? && rest != [] {
          return Raise(CompilerDefect);
        }
        AfterBoth(bound, columns, EmitPredicate(env, first).value, EmitPredicates(env, rest).value,
                  EmitPredicate(env, p).value);
        if connective.Negation? {
          return Ok(SqlNot(SqlParen(head)));
        }
        var combined := Fold(if connective.AllOf? then Conj else Disj, head, tail);
        return Ok(if connective.AnyOf? then SqlParen(combined) else combined);
    }

    method Predicates(ps: seq<Predicate>) returns (r: Outcome<seq<Cond>>)
      requires binder.Valid()
      modifies this, binder
      ensures match EmitPredicates(env, ps)
              case Raise(code) => r == Raise(code)
              case Ok(e) => r == Ok(e.tree) && Extends(old(binder.Contents()), old(referenced), e)
      decreases ps, 0
    {
      var parts: seq<Cond> := [];
      ghost var done := Emission(parts, [], {});
      AfterNothing(binder.Contents(), referenced);
      ContinueStart(EmitPredicates(env, ps));
      assert ps[0..] == ps;
      for i := 0 to |ps|
        invariant done.tree == parts
        invariant Extends(old(binder.Contents()), old(referenced), done)
        invariant EmitPredicates(env, ps) == Continue(done, EmitPredicates(env, ps[i..]))
      {
        var part :- Predicate(ps[i]);
        parts := parts + [part];
        ghost var e := EmitPredicate(env, ps[i]).value;
        ContinueStep(done, e, EmitPredicates(env, ps[i + 1..]));
        assert ps[i..][1..] == ps[i + 1..];
        AfterBoth(old(binder.Contents()), old(referenced), done, e, Append(done, e));
        done := Append(done, e);
      }
      ContinueEnd(done);
      r := Ok(parts);
    }

    method Measure(m: Measure) returns (r: Outcome<SqlMeasure>)
      modifies this
      ensures match EmitMeasure(env, m)
              case Raise(code) => r == Raise(code)
              case Ok(e) => r == Ok(e.tree) && referenced == old(referenced) + e.columns
      decreases m
    {
      match m
      case Aggregate(op, operand) =>
        var fn, distinct := if op.CountDistinct? then Count else op, op.CountDistinct?;
        if operand.None? {
          return Ok(SqlAggregate(fn, distinct, None));
        }
        var column :- Column(operand.value);
        return Ok(SqlAggregate(fn, distinct, Some(column)));
      case Ratio(n, d, policy) =>
        var num :- Measure(n);
        var den :- Measure(d);
        return Ok(SqlDiv(num, if policy.NullOnZero? then SqlNullIfZero(den) else den));
    }
  }

  /** The loop of the AND and OR chains. */
  method Fold(j: Junction, first: Cond, rest: seq<Cond>) returns (combined: Cond)
    ensures combined == Chain(j, first, rest)
  {
    combined := first;
    for i := 0 to |rest|
      invariant Chain(j, first, rest) == Chain(j, combined, rest[i..])
    {
      combined := SqlChain(j, combined, rest[i]);
      assert rest[i..][1..] == rest[i + 1..];
    }
  }

  method AndAll(ctx: Ctx, ps: seq<Predicate>) returns (r: Outcome<Cond>)
    requires ps != [] && ctx.binder.Valid()
    modifies ctx, ctx.binder
    ensures match EmitAll(ctx.env, ps)
            case Raise(code) => r == Raise(code)
            case Ok(e) => r == Ok(e.tree) && ctx.Extends(old(ctx.binder.Contents()), old(ctx.referenced), e)
  {
    var parts :- ctx.Predicates(ps);
    var combined := Fold(Conj, parts[0], parts[1..]);
    r := Ok(combined);
  }

  method BuildAliases(plan: LogicalPlan) returns (aliasOf: map<TableId, Alias>)
    ensures aliasOf == AliasMap(Scans(plan))
  {
    hide AliasMap, Scans;
    FirstAlias(plan);
    aliasOf := map[plan.base.table := plan.base.alias];
    for i := 0 to |plan.joins|
      invariant aliasOf == AliasMap(Scans(plan)[..i + 1])
    {
      var right := plan.joins[i].right;
      aliasOf := aliasOf[right.table := right.alias];
      NextScanAlias(plan, i);
    }
    assert Scans(plan)[..|plan.joins| + 1] == Scans(plan);
  }

  lemma FirstAlias(plan: LogicalPlan)
    ensures |Scans(plan)| == |plan.joins| + 1
    ensures AliasMap(Scans(plan)[..1]) == map[plan.base.table := plan.base.alias]
  {
    assert Scans(plan)[..1][..0] == [];
    assert AliasMap([]) == map[];
  }

  lemma NextScanAlias(plan: LogicalPlan, i: nat)
    requires i < |plan.joins|
    ensures |Scans(plan)| == |plan.joins| + 1
    ensures var right := plan.joins[i].right;
            AliasMap(Scans(plan)[..i + 2]) == AliasMap(Scans(plan)[..i + 1])[right.table := right.alias]
  {
    assert Scans(plan)[..i + 2][..i + 1] == Scans(plan)[..i + 1];
  }

  method ProjectDimensions(ctx: Ctx, gs: seq<(string, Option<ColumnId>)>) returns (r: Outcome<seq<Projection>>)
    modifies ctx
    ensures match EmitDimensions(ctx.env, gs)
            case Raise(code) => r == Raise(code)
            case Ok(e) => r == Ok(e.tree) && ctx.referenced == old(ctx.referenced) + e.columns
  {
    var out: seq<Projection> := [];
    ghost var done := Emission(out, [], {});
    ContinueStart(EmitDimensions(ctx.env, gs));
    assert gs[0..] == gs;
    for i := 0 to |gs|
      invariant done == Emission(out, [], done.columns)
      invariant ctx.referenced == old(ctx.referenced) + done.columns
      invariant EmitDimensions(ctx.env, gs) == Continue(done, EmitDimensions(ctx.env, gs[i..]))
    {
      assert gs[i..][1..] == gs[i + 1..];
      if gs[i].1.Some? {
        var column :- ctx.Column(gs[i].1.value);
        out := out + [Projection(Plain(column), gs[i].0)];
        ghost var e := EmitDimension(ctx.env, gs[i].0, gs[i].1.value).value;
        ContinueStep(done, e, EmitDimensions(ctx.env, gs[i + 1..]));
        AfterBoth([], old(ctx.referenced), done, e, Append(done, e));
        done := Append(done, e);
      }
    }
    ContinueEnd(done);
    r := Ok(out);
  }

  method ProjectMeasures(ctx: Ctx, ms: seq<(string, Measure)>) returns (r: Outcome<seq<Projection>>)
    modifies ctx
    ensures match EmitMeasures(ctx.env, ms)
            case Raise(code) => r == Raise(code)
            case Ok(e) => r == Ok(e.tree) && ctx.referenced == old(ctx.referenced) + e.columns
  {
    var out: seq<Projection> := [];
    ghost var done := Emission(out, [], {});
    ContinueStart(EmitMeasures(ctx.env, ms));
    assert ms[0..] == ms;
    for i := 0 to |ms|
      invariant done == Emission(out, [], done.columns)
      invariant ctx.referenced == old(ctx.referenced) + done.columns
      invariant EmitMeasures(ctx.env, ms) == Continue(done, EmitMeasures(ctx.env, ms[i..]))
    {
      assert ms[i..][1..] == ms[i + 1..];
      var measure :- ctx.Measure(ms[i].1);
      out := out + [Projection(Measured(measure), ms[i].0)];
      ghost var e := EmitMeasured(ctx.env, ms[i].0, ms[i].1).value;
      ContinueStep(done, e, EmitMeasures(ctx.env, ms[i + 1..]));
      AfterBoth([], old(ctx.referenced), done, e, Append(done, e));
      done := Append(done, e);
    }
    ContinueEnd(done);
    r := Ok(out);
  }

  method JoinClauses(ctx: Ctx, joins: seq<Join>) returns (r: Outcome<seq<SqlJoin>>)
    requires JoinsHavePredicates(joins) && ctx.binder.Valid()
    modifies ctx, ctx.binder
    ensures match EmitJoins(ctx.env, joins)
            case Raise(code) => r == Raise(code)
            case Ok(e) => r == Ok(e.tree) && ctx.Extends(old(ctx.binder.Contents()), old(ctx.referenced), e)
  {
    var out: seq<SqlJoin> := [];
    ghost var done := Emission(out, [], {});
    AfterNothing(ctx.binder.Contents(), ctx.referenced);
    ContinueStart(EmitJoins(ctx.env, joins));
    assert joins[0..] == joins;
    for i := 0 to |joins|
      invariant done.tree == out
      invariant ctx.Extends(old(ctx.binder.Contents()), old(ctx.referenced), done)
      invariant EmitJoins(ctx.env, joins) == Continue(done, EmitJoins(ctx.env, joins[i..]))
    {
      assert joins[i..][1..] == joins[i + 1..];
      var join := joins[i];
      var on :- AndAll(ctx, join.predicates);
      out := out + [SqlJoin(TableRef(join.right.physical, join.right.alias), on, join.joinType)];
      ghost var e := EmitJoin(ctx.env, join).value;
      ContinueStep(done, e, EmitJoins(ctx.env, joins[i + 1..]));
      AfterBoth(old(ctx.binder.Contents()), old(ctx.referenced), done, e, Append(done, e));
      done := Append(done, e);
    }
    ContinueEnd(done);
    r := Ok(out);
  }

  method Clause(ctx: Ctx, ps: seq<Predicate>) returns (r: Outcome<Option<Cond>>)
    requires ctx.binder.Valid()
    modifies ctx, ctx.binder
    ensures match EmitClause(ctx.env, ps)
            case Raise(code) => r == Raise(code)
            case Ok(e) => r == Ok(e.tree) && ctx.Extends(old(ctx.binder.Contents()), old(ctx.referenced), e)
  {
    AfterNothing(ctx.binder.Contents(), ctx.referenced);
    if ps == [] {
      return Ok(None);
    }
    var c :- AndAll(ctx, ps);
    return Ok(Some(c));
  }

  method ProjectBucket(ctx: Ctx, b: Option<TimeBucket>) returns (r: Outcome<seq<Projection>>)
    modifies ctx
    ensures match EmitBucketProjection(ctx.env, b)
            case Raise(code) => r == Raise(code)
            case Ok(e) => r == Ok(e.tree) && ctx.referenced == old(ctx.referenced) + e.columns
  {
    if b.None? {
      return Ok([]);
    }
    var column :- ctx.Column(b.value.column);
    var zone := if UtcZone(b.value.zone) then None else Some(b.value.zone);
    return Ok([Projection(DateTrunc(b.value.grain, zone, column), b.value.alias)]);
  }

  method Output(ctx: Ctx, plan: LogicalPlan) returns (r: Outcome<(seq<Projection>, seq<OutExpr>)>)
    modifies ctx
    ensures match EmitOutput(ctx.env, plan)
            case Raise(code) => r == Raise(code)
            case Ok(e) => r == Ok(e.tree) && ctx.referenced == old(ctx.referenced) + e.columns
  {
    var bucket :- ProjectBucket(ctx, plan.timeBucket);
    var dimensions :- ProjectDimensions(ctx, plan.groupBy);
    var measures :- ProjectMeasures(ctx, plan.measures);
    var projections := bucket + dimensions + measures;
    if projections == [] {
      return Raise(CompilerDefect);
    }
    // Grouping emits again the columns that the projections already resolved.
    r := Ok((projections, ProjectedExprs(bucket + dimensions)));
  }

  method Sources(ctx: Ctx, plan: LogicalPlan) returns (r: Outcome<Conditions>)
    requires JoinsHavePredicates(plan.joins) && ctx.binder.Valid()
    modifies ctx, ctx.binder
    ensures match EmitConditions(ctx.env, plan)
            case Raise(code) => r == Raise(code)
            case Ok(e) => r == Ok(e.tree) && ctx.Extends(old(ctx.binder.Contents()), old(ctx.referenced), e)
  {
    ghost var bound, columns := ctx.binder.Contents(), ctx.referenced;
    var joins :- JoinClauses(ctx, plan.joins);
    var where :- Clause(ctx, plan.where);
    ghost var e1, e2 := EmitJoins(ctx.env, plan.joins).value, EmitClause(ctx.env, plan.where).value;
    ghost var both := Emission((), e1.bound + e2.bound, e1.columns + e2.columns);
    AfterBoth(bound, columns, e1, e2, both);
    assert ctx.Extends(bound, columns, both);
    var having :- Clause(ctx, plan.having);
    AfterBoth(bound, columns, both, EmitClause(ctx.env, plan.having).value, EmitConditions(ctx.env, plan).value);
    r := Ok(Conditions(joins, where, having));
  }

  method Compile(bundle: Bundle, plan: LogicalPlan, scope: Scope, parameters: map<string, Value>)
    returns (r: Outcome<CompiledQuery>)
    requires JoinsHavePredicates(plan.joins)
    ensures match EmitSelect(EnvOf(bundle, plan, scope, parameters), plan)
            case Raise(code) => r == Raise(code)
            case Ok(e) => r == Ok(CompiledFrom(plan, e))
  {
    var aliasOf := BuildAliases(plan);
    var binder := new ParamBinder();
    var env := Env(aliasOf, Names(Supplied(parameters, scope), bundle.enums), bundle.columns);
    var ctx := new Ctx(env, binder);
    var output :- Output(ctx, plan);
    var conditions :- Sources(ctx, plan);
    var select := Statement(plan, output, conditions);

    PlaceholdersMatchValues(env, plan);
    ghost var e := EmitSelect(env, plan).value;
    assert binder.Contents() == [] + e.bound == e.bound;
    assert ctx.referenced == {} + e.columns == e.columns;
    if StatementHoles(select) != |binder.values| {
      return Raise(CompilerDefect);
    }
    r := Ok(CompiledQuery(select, binder.values, binder.names, TablesOf(ctx.referenced) + ScannedTables(plan),
                          ctx.referenced));
  }
}
