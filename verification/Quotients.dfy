/**
  The text of a measure as a token sequence, and the parser that reads it back. Division
  prints no parentheses and associates to the left, so a quotient in a divisor is read as
  part of the dividend unless NULLIF encloses it.
*/
module Quotients {
  import opened Errors
  import opened Values
  import opened SqlTree

  datatype Piece =
    | Call(fn: AggregateOp, distinct: bool, argument: Option<Scalar>) | Slash | NullIfOpen | ZeroClose

  function PrintMeasure(m: SqlMeasure): seq<Piece> {
    match m
    case SqlAggregate(fn, distinct, argument) => [Call(fn, distinct, argument)]
    case SqlDiv(l, r) => PrintMeasure(l) + [Slash] + PrintMeasure(r)
    case SqlNullIfZero(a) => [NullIfOpen] + PrintMeasure(a) + [ZeroClose]
  }

  // -- parsing -----------------------------------------------------------------------------------

  datatype ParsedMeasure = NoMeasure | ReadMeasure(measure: SqlMeasure, rest: seq<Piece>)

  function ParseQuotient(ts: seq<Piece>): (p: ParsedMeasure)
    ensures p.ReadMeasure? ==> |p.rest| < |ts|
    decreases |ts|, 2
  {
    var p := ParseFactor(ts);
    if p.NoMeasure? then p else QuotientTail(p.measure, p.rest)
  }

  function QuotientTail(acc: SqlMeasure, ts: seq<Piece>): (p: ParsedMeasure)
    ensures p.ReadMeasure? ==> |p.rest| <= |ts|
    decreases |ts|, 1
  {
    if ts != [] && ts[0].Slash? then
      var p := ParseFactor(ts[1..]);
      if p.NoMeasure? then p else QuotientTail(SqlDiv(acc, p.measure), p.rest)
    else ReadMeasure(acc, ts)
  }

  function ParseFactor(ts: seq<Piece>): (p: ParsedMeasure)
    ensures p.ReadMeasure? ==> |p.rest| < |ts|
    decreases |ts|, 0
  {
    if ts == [] then NoMeasure
    else match ts[0]
      case Call(fn, distinct, argument) => ReadMeasure(SqlAggregate(fn, distinct, argument), ts[1..])
      case NullIfOpen => CloseNullIf(ParseQuotient(ts[1..]))
      case _ => NoMeasure
  }

  function CloseNullIf(p: ParsedMeasure): (r: ParsedMeasure)
    ensures r.ReadMeasure? ==> p.ReadMeasure? && |r.rest| < |p.rest|
  {
    if p.ReadMeasure? && p.rest != [] && p.rest[0].ZeroClose? then ReadMeasure(SqlNullIfZero(p.measure), p.rest[1..])
    else NoMeasure
  }

  // -- the tree the parser builds -------------------------------------------------------------------

  function RegroupMeasure(m: SqlMeasure): SqlMeasure
    decreases m, 0
  {
    match m
    case SqlAggregate(_, _, _) => m
    case SqlDiv(l, r) => GraftDivisor(RegroupMeasure(l), r)
    case SqlNullIfZero(a) => SqlNullIfZero(RegroupMeasure(a))
  }

  /** Divides `acc` by each factor of the text of `m` in turn. */
  function GraftDivisor(acc: SqlMeasure, m: SqlMeasure): SqlMeasure
    decreases m, 1
  {
    if m.SqlDiv? then GraftDivisor(GraftDivisor(acc, m.l), m.r) else SqlDiv(acc, RegroupMeasure(m))
  }

  lemma PiecesAssociate(a: seq<Piece>, b: seq<Piece>, rest: seq<Piece>)
    ensures (a + [Slash] + b) + rest == a + ([Slash] + b + rest)
  {
  }

  lemma {:induction false} FactorReadsBack(m: SqlMeasure, rest: seq<Piece>)
    requires !m.SqlDiv?
    ensures ParseFactor(PrintMeasure(m) + rest) == ReadMeasure(RegroupMeasure(m), rest)
    decreases m, 0
  {
    var ts := PrintMeasure(m) + rest;
    if m.SqlNullIfZero? {
      var tail := [ZeroClose] + rest;
      QuotientReadsBack(m.arg, tail);
      assert ts[1..] == PrintMeasure(m.arg) + tail && tail[1..] == rest;
      assert QuotientTail(RegroupMeasure(m.arg), tail) == ReadMeasure(RegroupMeasure(m.arg), tail);
    } else {
      assert ts[1..] == rest;
    }
  }

  lemma {:induction false} QuotientReadsBack(m: SqlMeasure, rest: seq<Piece>)
    ensures ParseQuotient(PrintMeasure(m) + rest) == QuotientTail(RegroupMeasure(m), rest)
    decreases m, 1
  {
    if m.SqlDiv? {
      hide ParseQuotient, QuotientTail;
      var tail := [Slash] + PrintMeasure(m.r) + rest;
      QuotientReadsBack(m.l, tail);
      PiecesAssociate(PrintMeasure(m.l), PrintMeasure(m.r), rest);
      DivisorGrafts(RegroupMeasure(m.l), m.r, rest);
    } else {
      hide ParseFactor, PrintMeasure, RegroupMeasure;
      FactorReadsBack(m, rest);
    }
  }

  lemma {:induction false} DivisorGrafts(acc: SqlMeasure, m: SqlMeasure, rest: seq<Piece>)
    ensures QuotientTail(acc, [Slash] + PrintMeasure(m) + rest) == QuotientTail(GraftDivisor(acc, m), rest)
    decreases m, 1
  {
    var ts := [Slash] + PrintMeasure(m) + rest;
    if m.SqlDiv? {
      hide QuotientTail;
      var tail := [Slash] + PrintMeasure(m.r) + rest;
      PiecesAssociate([Slash] + PrintMeasure(m.l), PrintMeasure(m.r), rest);
      assert ts == ([Slash] + PrintMeasure(m.l)) + tail;
      DivisorGrafts(acc, m.l, tail);
      DivisorGrafts(GraftDivisor(acc, m.l), m.r, rest);
    } else {
      FactorReadsBack(m, rest);
      assert ts[1..] == PrintMeasure(m) + rest && ts[0].Slash?;
    }
  }

  /** A measure's text parses completely, to the tree with every division grouped to the left. */
  lemma MeasureReadsBack(m: SqlMeasure)
    ensures ParseQuotient(PrintMeasure(m)) == ReadMeasure(RegroupMeasure(m), [])
  {
    QuotientReadsBack(m, []);
    assert PrintMeasure(m) + [] == PrintMeasure(m);
  }

  // -- which measures keep their shape -------------------------------------------------------------------

  /** No divisor is itself a bare quotient. */
  predicate LeftDivided(m: SqlMeasure) {
    match m
    case SqlAggregate(_, _, _) => true
    case SqlDiv(l, r) => LeftDivided(l) && !r.SqlDiv? && LeftDivided(r)
    case SqlNullIfZero(a) => LeftDivided(a)
  }

  lemma {:induction false} RegroupedIsLeft(m: SqlMeasure)
    ensures LeftDivided(RegroupMeasure(m))
    decreases m, 0
  {
    match m
    case SqlAggregate(_, _, _) =>
    case SqlDiv(l, r) => RegroupedIsLeft(l); GraftedIsLeft(RegroupMeasure(l), r);
    case SqlNullIfZero(a) => RegroupedIsLeft(a);
  }

  lemma {:induction false} GraftedIsLeft(acc: SqlMeasure, m: SqlMeasure)
    requires LeftDivided(acc)
    ensures LeftDivided(GraftDivisor(acc, m))
    decreases m, 1
  {
    if m.SqlDiv? {
      GraftedIsLeft(acc, m.l);
      GraftedIsLeft(GraftDivisor(acc, m.l), m.r);
    } else {
      RegroupedIsLeft(m);
    }
  }

  lemma {:induction false} LeftStays(m: SqlMeasure)
    requires LeftDivided(m)
    ensures RegroupMeasure(m) == m
  {
    match m
    case SqlAggregate(_, _, _) =>
    case SqlDiv(l, r) => LeftStays(l); LeftStays(r);
    case SqlNullIfZero(a) => LeftStays(a);
  }

  /** A measure reads back as it was emitted exactly when no divisor is a quotient outside NULLIF. */
  lemma MeasureKeepsShape(m: SqlMeasure)
    ensures ParseQuotient(PrintMeasure(m)) == ReadMeasure(m, []) <==> LeftDivided(m)
  {
    MeasureReadsBack(m);
    RegroupedIsLeft(m);
    if LeftDivided(m) {
      LeftStays(m);
    }
  }
}
