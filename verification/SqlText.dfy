/**
  The text of a condition as a token sequence, and the precedence parser that reads it back:
  NOT binds tighter than AND, AND tighter than OR, and chains associate to the left. The
  printer adds no parentheses of its own; only a tree's SqlParen nodes print any.
*/
module SqlText {
  import opened Errors
  import opened Values
  import opened Expressions
  import opened SqlTree

  datatype Token =
    | Atom(s: Scalar) | Operator(op: CompareOp) | IsNullWord | InWord
    | NotWord | Link(junction: Junction) | Open | Close

  function PrintList(ss: seq<Scalar>): seq<Token> {
    if ss == [] then [] else [Atom(ss[0])] + PrintList(ss[1..])
  }

  function Print(c: Cond): seq<Token> {
    match c
    case SqlCompare(op, l, r) => [Atom(l), Operator(op), Atom(r)]
    case SqlIsNull(s) => [Atom(s), IsNullWord]
    case SqlIn(l, ms) => [Atom(l), InWord, Open] + PrintList(ms) + [Close]
    case SqlNot(a) => [NotWord] + Print(a)
    case SqlChain(j, l, r) => Print(l) + [Link(j)] + Print(r)
    case SqlParen(a) => [Open] + Print(a) + [Close]
  }

  // -- parsing -----------------------------------------------------------------

  datatype Parse = Failed | Read(cond: Cond, rest: seq<Token>)

  function ReadList(ts: seq<Token>): (r: (seq<Scalar>, seq<Token>))
    ensures |r.1| <= |ts|
  {
    if ts != [] && ts[0].Atom? then
      var (more, rest) := ReadList(ts[1..]); ([ts[0].s] + more, rest)
    else ([], ts)
  }

  /** A chain of disjuncts, each a chain of conjuncts. */
  function ParseOr(ts: seq<Token>): (p: Parse)
    ensures p.Read? ==> |p.rest| < |ts|
    decreases |ts|, 4
  {
    var p := ParseAnd(ts);
    if p.Failed? then p else OrTail(p.cond, p.rest)
  }

  function OrTail(acc: Cond, ts: seq<Token>): (p: Parse)
    ensures p.Read? ==> |p.rest| <= |ts|
    decreases |ts|, 3
  {
    if ts != [] && ts[0] == Link(Disj) then
      var p := ParseAnd(ts[1..]);
      if p.Failed? then p else OrTail(SqlChain(Disj, acc, p.cond), p.rest)
    else Read(acc, ts)
  }

  function ParseAnd(ts: seq<Token>): (p: Parse)
    ensures p.Read? ==> |p.rest| < |ts|
    decreases |ts|, 2
  {
    var p := ParseNot(ts);
    if p.Failed? then p else AndTail(p.cond, p.rest)
  }

  function AndTail(acc: Cond, ts: seq<Token>): (p: Parse)
    ensures p.Read? ==> |p.rest| <= |ts|
    decreases |ts|, 1
  {
    if ts != [] && ts[0] == Link(Conj) then
      var p := ParseNot(ts[1..]);
      if p.Failed? then p else AndTail(SqlChain(Conj, acc, p.cond), p.rest)
    else Read(acc, ts)
  }

  function ParseNot(ts: seq<Token>): (p: Parse)
    ensures p.Read? ==> |p.rest| < |ts|
    decreases |ts|, 0
  {
    if ts == [] then Failed
    else if ts[0] == NotWord then
      var p := ParseNot(ts[1..]);
      if p.Failed? then p else Read(SqlNot(p.cond), p.rest)
    else if ts[0] == Open then CloseParen(ParseOr(ts[1..]))
    else ParseTest(ts)
  }

  function CloseParen(p: Parse): (r: Parse)
    ensures r.Read? ==> p.Read? && |r.rest| < |p.rest|
  {
    if p.Read? && p.rest != [] && p.rest[0] == Close then Read(SqlParen(p.cond), p.rest[1..]) else Failed
  }

  /** A comparison, a NULL test or an IN list. */
  function ParseTest(ts: seq<Token>): (p: Parse)
    ensures p.Read? ==> |p.rest| < |ts|
  {
    if |ts| < 2 || !ts[0].Atom? then Failed
    else if ts[1] == IsNullWord then Read(SqlIsNull(ts[0].s), ts[2..])
    else if ts[1].Operator? && |ts| >= 3 && ts[2].Atom? then
      Read(SqlCompare(ts[1].op, ts[0].s, ts[2].s), ts[3..])
    else if ts[1] == InWord && |ts| >= 3 && ts[2] == Open then
      var (ms, rest) := ReadList(ts[3..]);
      if rest != [] && rest[0] == Close then Read(SqlIn(ts[0].s, ms), rest[1..]) else Failed
    else Failed
  }

  // -- trees that print without ambiguity ----------------------------------------

  /** A term that AND and NOT may take as it stands. */
  predicate Tight(c: Cond)
    decreases c, 0
  {
    match c
    case SqlChain(_, _, _) => false
    case SqlNot(a) => Tight(a)
    case SqlParen(a) => OrShape(a)
    case _ => true
  }

  predicate AndShape(c: Cond)
    decreases c, 1
  {
    if c.SqlChain? && c.junction.Conj? then AndShape(c.l) && AndShape(c.r) else Tight(c)
  }

  predicate OrShape(c: Cond)
    decreases c, 2
  {
    if c.SqlChain? && c.junction.Disj? then OrShape(c.l) && OrShape(c.r) else AndShape(c)
  }

  // -- the tree the parser builds: chains re-associated to the left ------------------

  function Regroup(c: Cond): Cond
    decreases c, 0
  {
    match c
    case SqlChain(j, l, r) => Graft(j, Regroup(l), r)
    case SqlNot(a) => SqlNot(Regroup(a))
    case SqlParen(a) => SqlParen(Regroup(a))
    case _ => c
  }

  /** Appends the links of `c`, a chain of junction `j`, to the chain `acc`. */
  function Graft(j: Junction, acc: Cond, c: Cond): Cond
    decreases c, 1
  {
    if c.SqlChain? && c.junction == j then Graft(j, Graft(j, acc, c.l), c.r)
    else SqlChain(j, acc, Regroup(c))
  }

  // -- reading back what was printed --------------------------------------------------

  lemma {:induction false} ListReadsBack(ss: seq<Scalar>, rest: seq<Token>)
    requires rest == [] || !rest[0].Atom?
    ensures ReadList(PrintList(ss) + rest) == (ss, rest)
  {
    if ss == [] {
      assert PrintList(ss) + rest == rest;
    } else {
      ListReadsBack(ss[1..], rest);
      assert (PrintList(ss) + rest)[1..] == PrintList(ss[1..]) + rest;
      assert [ss[0]] + ss[1..] == ss;
    }
  }

  lemma TestReadsBack(c: Cond, rest: seq<Token>)
    requires c.SqlCompare? || c.SqlIsNull? || c.SqlIn?
    ensures ParseTest(Print(c) + rest) == Read(c, rest)
  {
    var ts := Print(c) + rest;
    match c
    case SqlCompare(op, l, r) => assert ts[3..] == rest;
    case SqlIsNull(s) => assert ts[2..] == rest;
    case SqlIn(l, ms) =>
      ListReadsBack(ms, [Close] + rest);
      assert ts[3..] == PrintList(ms) + ([Close] + rest);
      assert ([Close] + rest)[1..] == rest;
  }

  lemma {:induction false} TightReadsBack(c: Cond, rest: seq<Token>)
    requires Tight(c)
    ensures ParseNot(Print(c) + rest) == Read(Regroup(c), rest)
    decreases c, 0
  {
    var ts := Print(c) + rest;
    if c.SqlNot? {
      TightReadsBack(c.arg, rest);
      assert ts[0] == NotWord && ts[1..] == Print(c.arg) + rest;
    } else if c.SqlParen? {
      var tail := [Close] + rest;
      OrReadsBack(c.arg, tail);
      assert ts[0] == Open && ts[1..] == Print(c.arg) + tail;
      assert tail[1..] == rest;
      assert OrTail(Regroup(c.arg), tail) == Read(Regroup(c.arg), tail);
      assert ParseNot(ts) == CloseParen(Read(Regroup(c.arg), tail));
    } else {
      TestReadsBack(c, rest);
      assert ts[0].Atom?;
    }
  }

  lemma TokensAssociate(a: seq<Token>, j: Junction, b: seq<Token>, rest: seq<Token>)
    ensures (a + [Link(j)] + b) + rest == a + ([Link(j)] + b + rest)
  {
  }

  lemma {:induction false} AndReadsBack(c: Cond, rest: seq<Token>)
    requires AndShape(c)
    ensures ParseAnd(Print(c) + rest) == AndTail(Regroup(c), rest)
    decreases c, 1
  {
    if c.SqlChain? {
      hide ParseAnd, AndTail, Graft;
      var tail := [Link(Conj)] + Print(c.r) + rest;
      AndReadsBack(c.l, tail);
      TokensAssociate(Print(c.l), Conj, Print(c.r), rest);
      AndGrafts(Regroup(c.l), c.r, rest);
    } else {
      hide ParseNot, AndTail, Print, Regroup;
      TightReadsBack(c, rest);
    }
  }

  lemma {:induction false} AndGrafts(acc: Cond, c: Cond, rest: seq<Token>)
    requires AndShape(c)
    ensures AndTail(acc, [Link(Conj)] + Print(c) + rest) == AndTail(Graft(Conj, acc, c), rest)
    decreases c, 1
  {
    var ts := [Link(Conj)] + Print(c) + rest;
    if c.SqlChain? {
      hide ParseNot, AndTail;
      var tail := [Link(Conj)] + Print(c.r) + rest;
      assert ts == [Link(Conj)] + Print(c.l) + tail;
      AndGrafts(acc, c.l, tail);
      AndGrafts(Graft(Conj, acc, c.l), c.r, rest);
    } else {
      hide ParseNot, Print, Regroup;
      TightReadsBack(c, rest);
      assert ts[1..] == Print(c) + rest;
    }
  }

  lemma {:induction false} OrReadsBack(c: Cond, rest: seq<Token>)
    requires OrShape(c)
    requires rest == [] || rest[0] != Link(Conj)
    ensures ParseOr(Print(c) + rest) == OrTail(Regroup(c), rest)
    decreases c, 2
  {
    if c.SqlChain? && c.junction.Disj? {
      hide ParseOr, OrTail;
      var tail := [Link(Disj)] + Print(c.r) + rest;
      OrReadsBack(c.l, tail);
      TokensAssociate(Print(c.l), Disj, Print(c.r), rest);
      OrGrafts(Regroup(c.l), c.r, rest);
    } else {
      hide ParseAnd, Print, Regroup;
      AndReadsBack(c, rest);
      assert AndTail(Regroup(c), rest) == Read(Regroup(c), rest);
    }
  }

  lemma {:induction false} OrGrafts(acc: Cond, c: Cond, rest: seq<Token>)
    requires OrShape(c)
    requires rest == [] || rest[0] != Link(Conj)
    ensures OrTail(acc, [Link(Disj)] + Print(c) + rest) == OrTail(Graft(Disj, acc, c), rest)
    decreases c, 3
  {
    var ts := [Link(Disj)] + Print(c) + rest;
    if c.SqlChain? && c.junction.Disj? {
      hide ParseAnd, OrTail, AndTail;
      var tail := [Link(Disj)] + Print(c.r) + rest;
      TokensAssociate([Link(Disj)] + Print(c.l), Disj, Print(c.r), rest);
      assert ts == ([Link(Disj)] + Print(c.l)) + tail;
      OrGrafts(acc, c.l, tail);
      OrGrafts(Graft(Disj, acc, c.l), c.r, rest);
    } else {
      OrGraftsLast(acc, c, rest);
    }
  }

  lemma OrGraftsLast(acc: Cond, c: Cond, rest: seq<Token>)
    requires AndShape(c) && !(c.SqlChain? && c.junction.Disj?)
    requires rest == [] || rest[0] != Link(Conj)
    ensures OrTail(acc, [Link(Disj)] + Print(c) + rest) == OrTail(Graft(Disj, acc, c), rest)
    decreases c, 2
  {
    hide ParseAnd, Print, Regroup, AndShape;
    var ts := [Link(Disj)] + Print(c) + rest;
    AndReadsBack(c, rest);
    assert ts[1..] == Print(c) + rest && ts[0] == Link(Disj);
    assert AndTail(Regroup(c), rest) == Read(Regroup(c), rest);
    assert Graft(Disj, acc, c) == SqlChain(Disj, acc, Regroup(c));
  }

  /** The text of an unambiguous tree parses, completely, to the tree's left-grouped form. */
  lemma TextReadsBack(c: Cond)
    requires OrShape(c)
    ensures ParseOr(Print(c)) == Read(Regroup(c), [])
  {
    OrReadsBack(c, []);
    assert Print(c) + [] == Print(c);
  }

  // -- regrouping changes neither the text nor the meaning ---------------------------------

  lemma {:induction false} RegroupKeepsText(c: Cond)
    ensures Print(Regroup(c)) == Print(c)
    decreases c, 0
  {
    match c
    case SqlChain(j, l, r) => RegroupKeepsText(l); GraftText(j, Regroup(l), r);
    case SqlNot(a) => RegroupKeepsText(a);
    case SqlParen(a) => RegroupKeepsText(a);
    case _ =>
  }

  lemma PrintOfChain(j: Junction, l: Cond, r: Cond)
    ensures Print(SqlChain(j, l, r)) == Print(l) + [Link(j)] + Print(r)
  {
  }

  lemma LinksAssociate(a: seq<Token>, j: Junction, b: seq<Token>, c: seq<Token>)
    ensures (a + [Link(j)] + b) + [Link(j)] + c == a + [Link(j)] + (b + [Link(j)] + c)
  {
  }

  lemma {:induction false} GraftText(j: Junction, acc: Cond, c: Cond)
    ensures Print(Graft(j, acc, c)) == Print(acc) + [Link(j)] + Print(c)
    decreases c, 1
  {
    hide Print, Regroup;
    if c.SqlChain? && c.junction == j {
      GraftText(j, acc, c.l);
      GraftText(j, Graft(j, acc, c.l), c.r);
      PrintOfChain(j, c.l, c.r);
      LinksAssociate(Print(acc), j, Print(c.l), Print(c.r));
    } else {
      RegroupKeepsText(c);
      PrintOfChain(j, acc, Regroup(c));
    }
  }

  lemma {:induction false} RegroupKeepsHoles(c: Cond)
    ensures Holes(Regroup(c)) == Holes(c)
    decreases c, 0
  {
    match c
    case SqlChain(j, l, r) => RegroupKeepsHoles(l); GraftHoles(j, Regroup(l), r);
    case SqlNot(a) => RegroupKeepsHoles(a);
    case SqlParen(a) => RegroupKeepsHoles(a);
    case _ =>
  }

  lemma {:induction false} GraftHoles(j: Junction, acc: Cond, c: Cond)
    ensures Holes(Graft(j, acc, c)) == Holes(acc) + Holes(c)
    decreases c, 1
  {
    if c.SqlChain? && c.junction == j {
      GraftHoles(j, acc, c.l);
      GraftHoles(j, Graft(j, acc, c.l), c.r);
    } else {
      RegroupKeepsHoles(c);
    }
  }

  lemma {:induction false} RegroupKeepsMeaning(c: Cond, vals: seq<Value>, at: nat, t: Tuple<Alias>)
    ensures Eval(Regroup(c), vals, at, t) == Eval(c, vals, at, t)
    decreases c, 0
  {
    match c
    case SqlChain(j, l, r) =>
      RegroupKeepsMeaning(l, vals, at, t);
      RegroupKeepsHoles(l);
      GraftMeaning(j, Regroup(l), r, vals, at, t);
    case SqlNot(a) => RegroupKeepsMeaning(a, vals, at, t);
    case SqlParen(a) => RegroupKeepsMeaning(a, vals, at, t);
    case _ =>
  }

  lemma MergeAssociates(j: Junction, a: Truth, b: Truth, c: Truth)
    ensures Merge3(j, Merge3(j, a, b), c) == Merge3(j, a, Merge3(j, b, c))
  {
  }

  lemma {:induction false} GraftMeaning(j: Junction, acc: Cond, c: Cond, vals: seq<Value>, at: nat, t: Tuple<Alias>)
    ensures Eval(Graft(j, acc, c), vals, at, t)
         == Merge3(j, Eval(acc, vals, at, t), Eval(c, vals, at + Holes(acc), t))
    decreases c, 1
  {
    hide Eval, Holes, Regroup;
    var next := at + Holes(acc);
    if c.SqlChain? && c.junction == j {
      var longer, last := Graft(j, acc, c.l), next + Holes(c.l);
      GraftMeaning(j, acc, c.l, vals, at, t);
      GraftMeaning(j, longer, c.r, vals, at, t);
      GraftHoles(j, acc, c.l);
      ChainEval(j, c.l, c.r, vals, next, t);
      MergeAssociates(j, Eval(acc, vals, at, t), Eval(c.l, vals, next, t), Eval(c.r, vals, last, t));
    } else {
      RegroupKeepsMeaning(c, vals, next, t);
      ChainEval(j, acc, Regroup(c), vals, at, t);
    }
  }

  lemma ChainEval(j: Junction, l: Cond, r: Cond, vals: seq<Value>, at: nat, t: Tuple<Alias>)
    ensures Eval(SqlChain(j, l, r), vals, at, t) == Merge3(j, Eval(l, vals, at, t), Eval(r, vals, at + Holes(l), t))
  {
  }

  // -- regrouping keeps the conjuncts and the columns ---------------------------------------

  function RegroupAll(cs: seq<Cond>): (rs: seq<Cond>)
    ensures |rs| == |cs|
  {
    if cs == [] then [] else [Regroup(cs[0])] + RegroupAll(cs[1..])
  }

  lemma {:induction false} RegroupAllConcat(a: seq<Cond>, b: seq<Cond>)
    ensures RegroupAll(a + b) == RegroupAll(a) + RegroupAll(b)
  {
    if a == [] {
      assert a + b == b;
    } else {
      var ab := a + b;
      assert ab[1..] == a[1..] + b && ab[0] == a[0];
      RegroupAllConcat(a[1..], b);
      assert RegroupAll(ab) == [Regroup(a[0])] + (RegroupAll(a[1..]) + RegroupAll(b));
    }
  }

  /** The conjuncts of the parsed text are those of the tree, in order, each regrouped. */
  lemma {:induction false} RegroupKeepsConjuncts(c: Cond)
    requires AndShape(c)
    ensures Conjuncts(Regroup(c)) == RegroupAll(Conjuncts(c))
    decreases c, 0
  {
    if c.SqlChain? {
      RegroupKeepsConjuncts(c.l);
      GraftConjuncts(Regroup(c.l), c.r);
      RegroupAllConcat(Conjuncts(c.l), Conjuncts(c.r));
    }
  }

  lemma {:induction false} GraftConjuncts(acc: Cond, c: Cond)
    requires AndShape(c)
    ensures Conjuncts(Graft(Conj, acc, c)) == Conjuncts(acc) + RegroupAll(Conjuncts(c))
    decreases c, 1
  {
    if c.SqlChain? {
      GraftConjuncts(acc, c.l);
      GraftConjuncts(Graft(Conj, acc, c.l), c.r);
      RegroupAllConcat(Conjuncts(c.l), Conjuncts(c.r));
    }
  }

  lemma {:induction false} RegroupKeepsColumns(c: Cond)
    ensures CondColumns(Regroup(c)) == CondColumns(c)
    decreases c, 0
  {
    match c
    case SqlChain(j, l, r) => RegroupKeepsColumns(l); GraftColumns(j, Regroup(l), r);
    case SqlNot(a) => RegroupKeepsColumns(a);
    case SqlParen(a) => RegroupKeepsColumns(a);
    case _ =>
  }

  lemma {:induction false} GraftColumns(j: Junction, acc: Cond, c: Cond)
    ensures CondColumns(Graft(j, acc, c)) == CondColumns(acc) + CondColumns(c)
    decreases c, 1
  {
    if c.SqlChain? && c.junction == j {
      GraftColumns(j, acc, c.l);
      GraftColumns(j, Graft(j, acc, c.l), c.r);
    } else {
      RegroupKeepsColumns(c);
    }
  }
}
