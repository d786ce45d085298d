/**
  SQL values, three-valued truth and the aggregates of the query language.
  Truth tables follow ISO/IEC 9075-2 section 6.34; comparison, IN and NULL tests
  follow sections 8.2, 8.4 and 8.7.
*/
module Values {

  datatype Value = Null | Boolean(b: bool) | Number(n: real) | Instant(t: int) | Text(s: string)

  datatype Truth = Yes | No | Unknown

  datatype CompareOp = Eq | Ne | Lt | Lte | Gt | Gte

  datatype AggregateOp = Sum | Count | CountDistinct | Avg | Min | Max

  function Not3(a: Truth): Truth {
    match a
    case Yes => No
    case No => Yes
    case Unknown => Unknown
  }

  function And3(a: Truth, b: Truth): Truth {
    if a == No || b == No then No else if a == Yes && b == Yes then Yes else Unknown
  }

  function Or3(a: Truth, b: Truth): Truth {
    if a == Yes || b == Yes then Yes else if a == No && b == No then No else Unknown
  }

  function Negate(negated: bool, a: Truth): Truth {
    if negated then Not3(a) else a
  }

  /** Lexicographic order by code point, the order Python's `sorted` uses on strings. */
  predicate StringLess(a: string, b: string) {
    if b == [] then false
    else if a == [] then true
    else a[0] < b[0] || (a[0] == b[0] && StringLess(a[1..], b[1..]))
  }

  /** Values of different kinds are ordered by kind; the compiler never mixes them. */
  function Kind(v: Value): nat {
    match v
    case Null => 0
    case Boolean(_) => 1
    case Number(_) => 2
    case Instant(_) => 3
    case Text(_) => 4
  }

  predicate Below(a: Value, b: Value) {
    if Kind(a) != Kind(b) then Kind(a) < Kind(b)
    else match a
      case Null => false
      case Boolean(x) => !x && b.b
      case Number(x) => x < b.n
      case Instant(x) => x < b.t
      case Text(x) => StringLess(x, b.s)
  }

  function Compare(op: CompareOp, a: Value, b: Value): Truth {
    if a == Null || b == Null then Unknown
    else
      var holds := match op
        case Eq => a == b
        case Ne => a != b
        case Lt => Below(a, b)
        case Lte => Below(a, b) || a == b
        case Gt => Below(b, a)
        case Gte => Below(b, a) || a == b;
      if holds then Yes else No
  }

  /** IN is the disjunction of the equalities with the listed values. */
  function IsMember(v: Value, members: seq<Value>): Truth {
    if members == [] then No
    else Or3(Compare(Eq, v, members[0]), IsMember(v, members[1..]))
  }

  function NullTruth(v: Value): Truth {
    if v == Null then Yes else No
  }

  // -- aggregates: NULL inputs are skipped, as SQL prescribes ---------------

  function NonNull(vs: seq<Value>): seq<Value> {
    if vs == [] then []
    else (if vs[0] == Null then [] else [vs[0]]) + NonNull(vs[1..])
  }

  function Total(vs: seq<Value>): real {
    if vs == [] then 0.0
    else (if vs[0].Number? then vs[0].n else 0.0) + Total(vs[1..])
  }

  function Least(vs: seq<Value>): Value
    requires vs != []
  {
    if |vs| == 1 then vs[0]
    else var rest := Least(vs[1..]); if Below(rest, vs[0]) then rest else vs[0]
  }

  function Greatest(vs: seq<Value>): Value
    requires vs != []
  {
    if |vs| == 1 then vs[0]
    else var rest := Greatest(vs[1..]); if Below(vs[0], rest) then rest else vs[0]
  }

  function Distinct(vs: seq<Value>): set<Value> {
    set v | v in vs
  }

  function Aggregated(op: AggregateOp, inputs: seq<Value>): Value {
    var vs := NonNull(inputs);
    match op
    case Count => Number(|vs| as real)
    case CountDistinct => Number(|Distinct(vs)| as real)
    case Sum => if vs == [] then Null else Number(Total(vs))
    case Avg => if vs == [] then Null else Number(Total(vs) / |vs| as real)
    case Min => if vs == [] then Null else Least(vs)
    case Max => if vs == [] then Null else Greatest(vs)
  }
}
