/**
  The part of the SQL syntax tree that the compiler emits, and an evaluator for its
  conditions that knows nothing of plans: columns are read through table aliases and each
  placeholder takes the positional value of its place in the text.
*/
module SqlTree {
  import opened Errors
  import opened Values
  import opened Expressions

  /** The alias "t<i>" is represented by i. */
  type Alias = nat

  datatype Scalar = Col(alias: Alias, name: string) | Hole

  datatype Cond =
    | SqlCompare(cmp: CompareOp, left: Scalar, right: Scalar)
    | SqlIsNull(operand: Scalar)
    | SqlIn(left: Scalar, members: seq<Scalar>)
    | SqlNot(arg: Cond)
    | SqlChain(junction: Junction, l: Cond, r: Cond)
    | SqlParen(arg: Cond)

  /** Aggregates and their quotients; a divisor may be guarded by NULLIF. */
  datatype SqlMeasure =
    | SqlAggregate(fn: AggregateOp, distinct: bool, argument: Option<Scalar>)
    | SqlDiv(l: SqlMeasure, r: SqlMeasure)
    | SqlNullIfZero(arg: SqlMeasure)

  /** AND and OR, the two connectors of a chain. */
  datatype Junction = Conj | Disj

  function Merge3(j: Junction, a: Truth, b: Truth): Truth {
    if j.Conj? then And3(a, b) else Or3(a, b)
  }

  // -- placeholders in text order --------------------------------------------

  function ScalarHoles(s: Scalar): nat {
    if s.Hole? then 1 else 0
  }

  function ListHoles(ss: seq<Scalar>): nat {
    if ss == [] then 0 else ScalarHoles(ss[0]) + ListHoles(ss[1..])
  }

  function Holes(c: Cond): nat {
    match c
    case SqlCompare(_, l, r) => ScalarHoles(l) + ScalarHoles(r)
    case SqlIsNull(s) => ScalarHoles(s)
    case SqlIn(l, ms) => ScalarHoles(l) + ListHoles(ms)
    case SqlNot(a) => Holes(a)
    case SqlChain(_, l, r) => Holes(l) + Holes(r)
    case SqlParen(a) => Holes(a)
  }

  // -- evaluation ------------------------------------------------------------

  /** `at` is the position of the first placeholder of the part being read. */
  function ScalarValue(s: Scalar, vals: seq<Value>, at: nat, t: Tuple<Alias>): Value {
    match s
    case Col(a, n) => Field(t, a, n)
    case Hole => if at < |vals| then vals[at] else Null
  }

  function ListValues(ss: seq<Scalar>, vals: seq<Value>, at: nat, t: Tuple<Alias>): seq<Value> {
    if ss == [] then []
    else [ScalarValue(ss[0], vals, at, t)] + ListValues(ss[1..], vals, at + ScalarHoles(ss[0]), t)
  }

  function Eval(c: Cond, vals: seq<Value>, at: nat, t: Tuple<Alias>): Truth {
    match c
    case SqlCompare(op, l, r) =>
      Compare(op, ScalarValue(l, vals, at, t), ScalarValue(r, vals, at + ScalarHoles(l), t))
    case SqlIsNull(s) => NullTruth(ScalarValue(s, vals, at, t))
    case SqlIn(l, ms) =>
      IsMember(ScalarValue(l, vals, at, t), ListValues(ms, vals, at + ScalarHoles(l), t))
    case SqlNot(a) => Not3(Eval(a, vals, at, t))
    case SqlChain(j, l, r) => Merge3(j, Eval(l, vals, at, t), Eval(r, vals, at + Holes(l), t))
    case SqlParen(a) => Eval(a, vals, at, t)
  }

  // -- what the validator reads off a condition --------------------------------

  /** Top-level conjuncts, as the validator splits them. */
  function Conjuncts(c: Cond): seq<Cond> {
    if c.SqlChain? && c.junction.Conj? then Conjuncts(c.l) + Conjuncts(c.r) else [c]
  }

  function ScalarColumns(s: Scalar): set<(Alias, string)> {
    if s.Col? then {(s.alias, s.name)} else {}
  }

  function ListColumns(ss: seq<Scalar>): set<(Alias, string)> {
    if ss == [] then {} else ScalarColumns(ss[0]) + ListColumns(ss[1..])
  }

  function CondColumns(c: Cond): set<(Alias, string)> {
    match c
    case SqlCompare(_, l, r) => ScalarColumns(l) + ScalarColumns(r)
    case SqlIsNull(s) => ScalarColumns(s)
    case SqlIn(l, ms) => ScalarColumns(l) + ListColumns(ms)
    case SqlNot(a) => CondColumns(a)
    case SqlChain(_, l, r) => CondColumns(l) + CondColumns(r)
    case SqlParen(a) => CondColumns(a)
  }
}
