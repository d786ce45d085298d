/**
  The typed predicate and measure vocabulary, and what it means.

  Identifiers follow the catalog's convention that a column id is its table id, a dot and a
  name, so a column id is kept as that pair. The non-emptiness that the contracts demand of a
  connective's arguments is built into BoolOp, which separates the first argument.
*/
module Expressions {
  import opened Errors
  import opened Values

  type TableId = string

  datatype ColumnId = ColumnId(table: TableId, name: string)

  datatype Operand =
    | Column(ref: ColumnId)
    | Literal(value: Value)
    | Enum(valueSet: string, member: string)
    | Parameter(name: string)

  datatype Connective = AllOf | AnyOf | Negation

  datatype Predicate =
    | Comparison(op: CompareOp, left: Operand, right: Operand)
    | NullTest(negated: bool, operand: Operand)
    | Membership(negated: bool, left: Operand, members: seq<Operand>)
    | BoolOp(connective: Connective, first: Predicate, rest: seq<Predicate>)

  datatype ZeroPolicy = NullOnZero | ZeroOnZero | ErrorOnZero

  datatype Measure =
    | Aggregate(op: AggregateOp, operand: Option<ColumnId>)
    | Ratio(numerator: Measure, denominator: Measure, policy: ZeroPolicy)

  // -- the columns an expression touches -------------------------------------

  function OperandColumns(o: Operand): set<ColumnId> {
    if o.Column? then {o.ref} else {}
  }

  function MemberColumns(os: seq<Operand>): set<ColumnId> {
    if os == [] then {} else OperandColumns(os[0]) + MemberColumns(os[1..])
  }

  function ColumnsIn(p: Predicate): set<ColumnId>
    decreases p, 0
  {
    match p
    case Comparison(_, l, r) => OperandColumns(l) + OperandColumns(r)
    case NullTest(_, o) => OperandColumns(o)
    case Membership(_, l, ms) => OperandColumns(l) + MemberColumns(ms)
    case BoolOp(_, first, rest) => ColumnsIn(first) + ColumnsInAll(rest)
  }

  function ColumnsInAll(ps: seq<Predicate>): set<ColumnId>
    decreases ps, 0
  {
    if ps == [] then {} else ColumnsIn(ps[0]) + ColumnsInAll(ps[1..])
  }

  function MeasureColumns(m: Measure): set<ColumnId> {
    match m
    case Aggregate(_, None) => {}
    case Aggregate(_, Some(c)) => {c}
    case Ratio(n, d, _) => MeasureColumns(n) + MeasureColumns(d)
  }

  function TablesOf(cs: set<ColumnId>): set<TableId> {
    set c | c in cs :: c.table
  }

  // -- meaning over one row of every scanned table ---------------------------

  type Row = map<string, Value>

  /** One row per key; the plan keys rows by table, the emitted SQL by alias. */
  type Tuple<!K> = map<K, Row>

  /** A row that an outer join supplied is the empty row: each of its fields reads NULL. */
  function Field<K>(t: Tuple<K>, key: K, name: string): Value {
    if key in t && name in t[key] then t[key][name] else Null
  }

  /** What the named values of a plan stand for. */
  datatype Names = Names(supplied: map<string, Value>, enums: map<(string, string), string>)

  function OperandValue(o: Operand, names: Names, t: Tuple<TableId>): Value {
    match o
    case Column(c) => Field(t, c.table, c.name)
    case Literal(v) => v
    case Enum(s, m) => if (s, m) in names.enums then Text(names.enums[(s, m)]) else Null
    case Parameter(n) => if n in names.supplied then names.supplied[n] else Null
  }

  function OperandValues(os: seq<Operand>, names: Names, t: Tuple<TableId>): (vs: seq<Value>)
    ensures |vs| == |os|
  {
    if os == [] then [] else [OperandValue(os[0], names, t)] + OperandValues(os[1..], names, t)
  }

  function Denote(p: Predicate, names: Names, t: Tuple<TableId>): Truth
    decreases p, 0
  {
    match p
    case Comparison(op, l, r) => Compare(op, OperandValue(l, names, t), OperandValue(r, names, t))
    case NullTest(negated, o) => Negate(negated, NullTruth(OperandValue(o, names, t)))
    case Membership(negated, l, ms) =>
      Negate(negated, IsMember(OperandValue(l, names, t), OperandValues(ms, names, t)))
    case BoolOp(Negation, first, _) => Not3(Denote(first, names, t))
    case BoolOp(AllOf, first, rest) => And3(Denote(first, names, t), DenoteAll(rest, names, t))
    case BoolOp(AnyOf, first, rest) => Or3(Denote(first, names, t), DenoteAny(rest, names, t))
  }

  function DenoteAll(ps: seq<Predicate>, names: Names, t: Tuple<TableId>): Truth
    decreases ps, 0
  {
    if ps == [] then Yes else And3(Denote(ps[0], names, t), DenoteAll(ps[1..], names, t))
  }

  function DenoteAny(ps: seq<Predicate>, names: Names, t: Tuple<TableId>): Truth
    decreases ps, 0
  {
    if ps == [] then No else Or3(Denote(ps[0], names, t), DenoteAny(ps[1..], names, t))
  }

  /** Two tuples that agree on the tables of a predicate's columns agree on the predicate. */
  lemma {:induction false} DenoteReadsOnlyItsColumns(p: Predicate, names: Names,
                                                     t: Tuple<TableId>, u: Tuple<TableId>)
    requires forall c :: c in ColumnsIn(p) ==> Field(t, c.table, c.name) == Field(u, c.table, c.name)
    ensures Denote(p, names, t) == Denote(p, names, u)
    decreases p, 0
  {
    match p
    case Comparison(_, l, r) =>
    case NullTest(_, o) =>
    case Membership(_, l, ms) => MembersReadOnlyTheirColumns(ms, names, t, u);
    case BoolOp(_, first, rest) =>
      DenoteReadsOnlyItsColumns(first, names, t, u);
      ListReadsOnlyItsColumns(rest, names, t, u);
  }

  lemma {:induction false} MembersReadOnlyTheirColumns(os: seq<Operand>, names: Names,
                                                       t: Tuple<TableId>, u: Tuple<TableId>)
    requires forall c :: c in MemberColumns(os) ==> Field(t, c.table, c.name) == Field(u, c.table, c.name)
    ensures OperandValues(os, names, t) == OperandValues(os, names, u)
  {
    if os != [] {
      MembersReadOnlyTheirColumns(os[1..], names, t, u);
    }
  }

  lemma {:induction false} ListReadsOnlyItsColumns(ps: seq<Predicate>, names: Names,
                                                   t: Tuple<TableId>, u: Tuple<TableId>)
    requires forall c :: c in ColumnsInAll(ps) ==> Field(t, c.table, c.name) == Field(u, c.table, c.name)
    ensures DenoteAll(ps, names, t) == DenoteAll(ps, names, u)
    ensures DenoteAny(ps, names, t) == DenoteAny(ps, names, u)
    decreases ps, 0
  {
    if ps != [] {
      DenoteReadsOnlyItsColumns(ps[0], names, t, u);
      ListReadsOnlyItsColumns(ps[1..], names, t, u);
    }
  }
}
