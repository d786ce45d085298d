/**
  The compiler preserves meaning. Part one: conditions. A compiled predicate, printed, parsed
  back and evaluated with positional values, has the truth value the plan's predicate has
  with named parameters; and the positional values line up with the placeholders exactly when
  no IN list separates differing bindings from a bound left side.
*/
module CompilerMeaning {
  import opened Errors
  import opened Values
  import opened Expressions
  import opened Catalog
  import opened SqlTree
  import opened SqlText
  import opened SqlQuery
  import opened Plans
  import opened Emissions

  // -- placeholders and bindings -------------------------------------------------------

  function OperandBound(env: Env, o: Operand): (bs: seq<Binding>)
    ensures |bs| <= 1
  {
    var e := EmitOperand(env, o);
    if e.Ok? && e.value.bound != [] then [e.value.bound[0]] else []
  }

  function ListBound(env: Env, os: seq<Operand>): seq<Binding> {
    if os == [] then [] else OperandBound(env, os[0]) + ListBound(env, os[1..])
  }

  /** The bindings in the order in which their placeholders stand in the text. */
  function TextBound(env: Env, p: Predicate): seq<Binding>
    decreases p, 0
  {
    match p
    case Comparison(_, l, r) => OperandBound(env, l) + OperandBound(env, r)
    case NullTest(_, o) => OperandBound(env, o)
    case Membership(_, l, ms) => OperandBound(env, l) + ListBound(env, ms)
    case BoolOp(_, first, rest) => TextBound(env, first) + TextBoundAll(env, rest)
  }

  function TextBoundAll(env: Env, ps: seq<Predicate>): seq<Binding>
    decreases ps, 0
  {
    if ps == [] then [] else TextBound(env, ps[0]) + TextBoundAll(env, ps[1..])
  }

  /** No IN test binds a left side that differs from one of its bound members. */
  predicate InOrder(env: Env, p: Predicate)
    decreases p, 0
  {
    match p
    case Membership(_, l, ms) =>
      OperandBound(env, l) == [] || forall b :: b in ListBound(env, ms) ==> b == OperandBound(env, l)[0]
    case BoolOp(_, first, rest) => InOrder(env, first) && AllInOrder(env, rest)
    case _ => true
  }

  predicate AllInOrder(env: Env, ps: seq<Predicate>)
    decreases ps, 0
  {
    ps == [] || (InOrder(env, ps[0]) && AllInOrder(env, ps[1..]))
  }

  lemma {:induction false} RotationFixed<T>(x: T, s: seq<T>)
    ensures s + [x] == [x] + s <==> forall y :: y in s ==> y == x
  {
    if s + [x] == [x] + s {
      forall i: nat | i < |s|
        ensures s[i] == x
      {
        RotatedAt(x, s, i);
      }
    }
    if forall y :: y in s ==> y == x {
      forall i | 0 <= i < |s| + 1
        ensures (s + [x])[i] == ([x] + s)[i]
      {
        assert i < |s| ==> s[i] in s;
        assert i > 0 ==> s[i - 1] in s;
      }
    }
  }

  lemma {:induction false} RotatedAt<T>(x: T, s: seq<T>, i: nat)
    requires s + [x] == [x] + s && i < |s|
    ensures s[i] == x
  {
    assert (s + [x])[i] == s[i];
    assert ([x] + s)[i] == if i == 0 then x else s[i - 1];
    if i > 0 {
      RotatedAt(x, s, i - 1);
    }
  }

  lemma ConcatSplits<T>(a: seq<T>, b: seq<T>, c: seq<T>, d: seq<T>)
    requires |a| == |c| && |b| == |d|
    ensures a + b == c + d <==> a == c && b == d
  {
    if a + b == c + d {
      assert a == (a + b)[..|a|] == (c + d)[..|c|] == c;
      assert b == (a + b)[|a|..] == (c + d)[|c|..] == d;
    }
  }

  lemma {:induction false} ListBoundIsEmitted(env: Env, os: seq<Operand>)
    requires EmitOperands(env, os).Ok?
    ensures EmitOperands(env, os).value.bound == ListBound(env, os)
  {
    if os != [] {
      ListBoundIsEmitted(env, os[1..]);
    }
  }

  /** Binding order is text order exactly when the predicate is InOrder. */
  lemma {:induction false} PlaceholdersAligned(env: Env, p: Predicate)
    requires EmitPredicate(env, p).Ok?
    ensures var bound := EmitPredicate(env, p).value.bound;
            |bound| == |TextBound(env, p)| && (bound == TextBound(env, p) <==> InOrder(env, p))
    decreases p, 0
  {
    match p
    case Comparison(_, l, r) =>
    case NullTest(_, o) =>
    case Membership(_, l, ms) =>
      ListBoundIsEmitted(env, ms);
      var left, members := OperandBound(env, l), ListBound(env, ms);
      if left == [] {
        assert members + [] == members == [] + members;
      } else {
        RotationFixed(left[0], members);
        assert left == [left[0]];
      }
    case BoolOp(_, first, rest) =>
      PlaceholdersAligned(env, first);
      PlaceholdersAlignedAll(env, rest);
      ConcatSplits(EmitPredicate(env, first).value.bound, EmitPredicates(env, rest).value.bound,
                   TextBound(env, first), TextBoundAll(env, rest));
  }

  lemma {:induction false} PlaceholdersAlignedAll(env: Env, ps: seq<Predicate>)
    requires EmitPredicates(env, ps).Ok?
    ensures var bound := EmitPredicates(env, ps).value.bound;
            |bound| == |TextBoundAll(env, ps)| && (bound == TextBoundAll(env, ps) <==> AllInOrder(env, ps))
    decreases ps, 0
  {
    if ps != [] {
      PlaceholdersAligned(env, ps[0]);
      PlaceholdersAlignedAll(env, ps[1..]);
      ConcatSplits(EmitPredicate(env, ps[0]).value.bound, EmitPredicates(env, ps[1..]).value.bound,
                   TextBound(env, ps[0]), TextBoundAll(env, ps[1..]));
    }
  }

  // -- the shape of what is emitted -----------------------------------------------------

  lemma AndShapeIsOrShape(c: Cond)
    requires AndShape(c)
    ensures OrShape(c)
  {
    assert c.SqlChain? && c.junction.Disj? ==> !Tight(c);
  }

  lemma {:induction false} ChainShape(j: Junction, acc: Cond, parts: seq<Cond>)
    requires forall c :: c in parts ==> AndShape(c)
    requires if j.Conj? then AndShape(acc) else OrShape(acc)
    ensures if j.Conj? then AndShape(Chain(j, acc, parts)) else OrShape(Chain(j, acc, parts))
    decreases parts
  {
    if parts != [] {
      assert parts[0] in parts;
      AndShapeIsOrShape(parts[0]);
      ChainShape(j, SqlChain(j, acc, parts[0]), parts[1..]);
    }
  }

  /** Every emitted condition prints without ambiguity, and AND may take it as it stands. */
  lemma {:induction false} EmittedShape(env: Env, p: Predicate)
    requires EmitPredicate(env, p).Ok?
    ensures AndShape(EmitPredicate(env, p).value.tree)
    decreases p, 0
  {
    if p.BoolOp? {
      EmittedShape(env, p.first);
      EmittedShapes(env, p.rest);
      var head, tail := EmitPredicate(env, p.first).value.tree, EmitPredicates(env, p.rest).value.tree;
      AndShapeIsOrShape(head);
      if !p.connective.Negation? {
        ChainShape(if p.connective.AllOf? then Conj else Disj, head, tail);
      }
    }
  }

  lemma {:induction false} EmittedShapes(env: Env, ps: seq<Predicate>)
    requires EmitPredicates(env, ps).Ok?
    ensures forall c :: c in EmitPredicates(env, ps).value.tree ==> AndShape(c)
    decreases ps, 0
  {
    if ps != [] {
      EmittedShape(env, ps[0]);
      EmittedShapes(env, ps[1..]);
    }
  }

  lemma EmittedClauseShape(env: Env, ps: seq<Predicate>)
    requires ps != [] && EmitAll(env, ps).Ok?
    ensures AndShape(EmitAll(env, ps).value.tree)
  {
    EmittedShapes(env, ps);
    var parts := EmitPredicates(env, ps).value.tree;
    assert forall c :: c in parts[1..] ==> c in parts;
    ChainShape(Conj, parts[0], parts[1..]);
  }

  // -- meaning ----------------------------------------------------------------------------

  /** Aliased rows `u` carry, for every scanned table, the row that `t` has for it. */
  predicate Mirrors(aliasOf: map<TableId, Alias>, t: Tuple<TableId>, u: Tuple<Alias>) {
    forall table :: table in aliasOf ==>
      && (table in t <==> aliasOf[table] in u)
      && (table in t ==> t[table] == u[aliasOf[table]])
  }

  /** Column records are filed under their own names. */
  predicate Named(env: Env) {
    forall c :: c in env.columns ==> env.columns[c].name == c.name
  }

  /** From position `at` on, `vals` holds the values of `bs`. */
  predicate Fits(vals: seq<Value>, at: nat, bs: seq<Binding>) {
    at + |bs| <= |vals| && vals[at..at + |bs|] == BoundValues(bs)
  }

  lemma BoundValuesConcat(a: seq<Binding>, b: seq<Binding>)
    ensures BoundValues(a + b) == BoundValues(a) + BoundValues(b)
  {
  }

  lemma FitsSplits(vals: seq<Value>, at: nat, a: seq<Binding>, b: seq<Binding>)
    requires Fits(vals, at, a + b)
    ensures Fits(vals, at, a) && Fits(vals, at + |a|, b)
  {
    var window := vals[at..at + |a + b|];
    BoundValuesConcat(a, b);
    assert window == BoundValues(a) + BoundValues(b);
    assert vals[at..at + |a|] == window[..|a|];
    assert vals[at + |a|..at + |a| + |b|] == window[|a|..];
  }

  lemma OperandMeaning(env: Env, o: Operand, vals: seq<Value>, at: nat, t: Tuple<TableId>, u: Tuple<Alias>)
    requires Named(env) && Mirrors(env.aliasOf, t, u)
    requires EmitOperand(env, o).Ok? && Fits(vals, at, OperandBound(env, o))
    ensures var s := EmitOperand(env, o).value.tree;
            ScalarHoles(s) == |OperandBound(env, o)| && ScalarValue(s, vals, at, u) == OperandValue(o, env.names, t)
  {
    if !o.Column? {
      var b := OperandBound(env, o);
      assert vals[at] == vals[at..at + 1][0] == b[0].value;
    }
  }

  lemma {:induction false} OperandsMeaning(env: Env, os: seq<Operand>, vals: seq<Value>, at: nat,
                                           t: Tuple<TableId>, u: Tuple<Alias>)
    requires Named(env) && Mirrors(env.aliasOf, t, u)
    requires EmitOperands(env, os).Ok? && Fits(vals, at, ListBound(env, os))
    ensures var ss := EmitOperands(env, os).value.tree;
            ListValues(ss, vals, at, u) == OperandValues(os, env.names, t)
  {
    hide Named, Mirrors, Fits, EmitOperand, OperandBound, OperandValue, ScalarValue;
    if os != [] {
      FitsSplits(vals, at, OperandBound(env, os[0]), ListBound(env, os[1..]));
      OperandMeaning(env, os[0], vals, at, t, u);
      OperandsMeaning(env, os[1..], vals, at + |OperandBound(env, os[0])|, t, u);
    }
  }

  /** Three-valued value of a list of conditions that stand one after the other in the text. */
  function EvalParts(j: Junction, cs: seq<Cond>, vals: seq<Value>, at: nat, u: Tuple<Alias>): Truth {
    if cs == [] then (if j.Conj? then Yes else No)
    else Merge3(j, Eval(cs[0], vals, at, u), EvalParts(j, cs[1..], vals, at + Holes(cs[0]), u))
  }

  lemma {:induction false} ChainMeaning(j: Junction, acc: Cond, parts: seq<Cond>, vals: seq<Value>, at: nat, u: Tuple<Alias>)
    ensures Eval(Chain(j, acc, parts), vals, at, u)
         == Merge3(j, Eval(acc, vals, at, u), EvalParts(j, parts, vals, at + Holes(acc), u))
    decreases parts
  {
    var next := at + Holes(acc);
    if parts != [] {
      ChainMeaning(j, SqlChain(j, acc, parts[0]), parts[1..], vals, at, u);
      MergeAssociates(j, Eval(acc, vals, at, u), Eval(parts[0], vals, next, u),
                      EvalParts(j, parts[1..], vals, next + Holes(parts[0]), u));
    }
  }

  function DenoteParts(j: Junction, ps: seq<Predicate>, names: Names, t: Tuple<TableId>): Truth {
    if j.Conj? then DenoteAll(ps, names, t) else DenoteAny(ps, names, t)
  }

  lemma TextBoundLength(env: Env, p: Predicate)
    requires EmitPredicate(env, p).Ok?
    ensures |TextBound(env, p)| == Holes(EmitPredicate(env, p).value.tree)
  {
    PlaceholdersAligned(env, p);
    PredicateFillsItsHoles(env, p);
  }

  lemma ComparisonMeaning(env: Env, p: Predicate, vals: seq<Value>, at: nat, t: Tuple<TableId>, u: Tuple<Alias>)
    requires Named(env) && Mirrors(env.aliasOf, t, u)
    requires p.Comparison? && EmitPredicate(env, p).Ok? && Fits(vals, at, TextBound(env, p))
    ensures Eval(EmitPredicate(env, p).value.tree, vals, at, u) == Denote(p, env.names, t)
  {
    FitsSplits(vals, at, OperandBound(env, p.left), OperandBound(env, p.right));
    OperandMeaning(env, p.left, vals, at, t, u);
    OperandMeaning(env, p.right, vals, at + |OperandBound(env, p.left)|, t, u);
  }

  lemma MembershipMeaning(env: Env, p: Predicate, vals: seq<Value>, at: nat, t: Tuple<TableId>, u: Tuple<Alias>)
    requires Named(env) && Mirrors(env.aliasOf, t, u)
    requires p.Membership? && EmitPredicate(env, p).Ok? && Fits(vals, at, TextBound(env, p))
    ensures Eval(EmitPredicate(env, p).value.tree, vals, at, u) == Denote(p, env.names, t)
  {
    var next := at + |OperandBound(env, p.left)|;
    FitsSplits(vals, at, OperandBound(env, p.left), ListBound(env, p.members));
    OperandMeaning(env, p.left, vals, at, t, u);
    OperandsMeaning(env, p.members, vals, next, t, u);
    var left, members := EmitOperand(env, p.left).value.tree, EmitOperands(env, p.members).value.tree;
    assert Eval(SqlIn(left, members), vals, at, u)
        == IsMember(OperandValue(p.left, env.names, t), OperandValues(p.members, env.names, t));
  }

  /** With values in text order, the emitted tree means what the predicate means. */
  lemma {:induction false} PredicateMeaning(env: Env, p: Predicate, vals: seq<Value>, at: nat,
                                            t: Tuple<TableId>, u: Tuple<Alias>)
    requires Named(env) && Mirrors(env.aliasOf, t, u)
    requires EmitPredicate(env, p).Ok? && Fits(vals, at, TextBound(env, p))
    ensures Eval(EmitPredicate(env, p).value.tree, vals, at, u) == Denote(p, env.names, t)
    decreases p, 0
  {
    hide Named, Mirrors, Fits, EmitOperand, OperandBound, OperandValue, ScalarValue;
    if p.Comparison? {
      ComparisonMeaning(env, p, vals, at, t, u);
    } else if p.NullTest? {
      OperandMeaning(env, p.operand, vals, at, t, u);
    } else if p.Membership? {
      MembershipMeaning(env, p, vals, at, t, u);
    } else {
      var head, tail := EmitPredicate(env, p.first).value.tree, EmitPredicates(env, p.rest).value.tree;
      FitsSplits(vals, at, TextBound(env, p.first), TextBoundAll(env, p.rest));
      TextBoundLength(env, p.first);
      PredicateMeaning(env, p.first, vals, at, t, u);
      if !p.connective.Negation? {
        hide TextBoundAll, EmitPredicates;
        var j := if p.connective.AllOf? then Conj else Disj;
        PredicatesMeaning(env, j, p.rest, vals, at + Holes(head), t, u);
        ChainMeaning(j, head, tail, vals, at, u);
      }
    }
  }

  lemma {:induction false} PredicatesMeaning(env: Env, j: Junction, ps: seq<Predicate>, vals: seq<Value>, at: nat,
                                             t: Tuple<TableId>, u: Tuple<Alias>)
    requires Named(env) && Mirrors(env.aliasOf, t, u)
    requires EmitPredicates(env, ps).Ok? && Fits(vals, at, TextBoundAll(env, ps))
    ensures EvalParts(j, EmitPredicates(env, ps).value.tree, vals, at, u) == DenoteParts(j, ps, env.names, t)
    decreases ps, 0
  {
    hide Named, Mirrors, Fits, EmitPredicate, TextBound, Holes, Eval, Denote;
    if ps != [] {
      FitsSplits(vals, at, TextBound(env, ps[0]), TextBoundAll(env, ps[1..]));
      TextBoundLength(env, ps[0]);
      PredicateMeaning(env, ps[0], vals, at, t, u);
      PredicatesMeaning(env, j, ps[1..], vals, at + |TextBound(env, ps[0])|, t, u);
    }
  }

  lemma ConjunctionMeaning(env: Env, ps: seq<Predicate>, vals: seq<Value>, at: nat, t: Tuple<TableId>, u: Tuple<Alias>)
    requires Named(env) && Mirrors(env.aliasOf, t, u)
    requires ps != [] && EmitAll(env, ps).Ok? && Fits(vals, at, TextBoundAll(env, ps))
    ensures Eval(EmitAll(env, ps).value.tree, vals, at, u) == DenoteAll(ps, env.names, t)
  {
    var parts := EmitPredicates(env, ps).value.tree;
    PredicatesMeaning(env, Conj, ps, vals, at, t, u);
    ChainMeaning(Conj, parts[0], parts[1..], vals, at, u);
    assert EvalParts(Conj, parts, vals, at, u) == DenoteAll(ps, env.names, t);
  }

  /** A clause's text parses completely. */
  lemma ClauseReadsBack(env: Env, ps: seq<Predicate>)
    requires ps != [] && EmitAll(env, ps).Ok?
    ensures var c := EmitAll(env, ps).value.tree;
            AndShape(c) && ReadBack(c) == Ok(Regroup(c)) && Holes(Regroup(c)) == Holes(c)
  {
    var c := EmitAll(env, ps).value.tree;
    EmittedClauseShape(env, ps);
    AndShapeIsOrShape(c);
    TextReadsBack(c);
    RegroupKeepsHoles(c);
  }

  /** A clause's printed and reparsed text means the conjunction of the plan's predicates. */
  lemma ClauseMeaning(env: Env, ps: seq<Predicate>, vals: seq<Value>, at: nat, t: Tuple<TableId>, u: Tuple<Alias>)
    requires Named(env) && Mirrors(env.aliasOf, t, u)
    requires ps != [] && EmitAll(env, ps).Ok? && Fits(vals, at, TextBoundAll(env, ps))
    ensures var read := ReadBack(EmitAll(env, ps).value.tree);
            read.Ok? && Eval(read.value, vals, at, u) == DenoteAll(ps, env.names, t)
  {
    ConjunctionMeaning(env, ps, vals, at, t, u);
    ClauseReadsBack(env, ps);
    RegroupKeepsMeaning(EmitAll(env, ps).value.tree, vals, at, u);
  }
}
