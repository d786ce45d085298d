/**
  The order in which a database stores its rows does not matter: every operator of a query takes
  permuted inputs to permuted outputs, and every aggregate ignores the order of its inputs.
*/
module Bags {
  import opened Values
  import opened Expressions
  import opened Ordering
  import opened Relational
  import opened SqlQuery
  import opened PlanMeaning

  /** The two sequences are permutations of each other. */
  predicate Same<T(==)>(xs: seq<T>, ys: seq<T>) {
    multiset(xs) == multiset(ys)
  }

  /** What the elements contribute, each on its own. */
  ghost function Spread<T, U>(xs: seq<T>, part: T -> multiset<U>): multiset<U> {
    if xs == [] then multiset{} else part(xs[0]) + Spread(xs[1..], part)
  }

  lemma {:induction false} SpreadConcat<T, U>(a: seq<T>, b: seq<T>, part: T -> multiset<U>)
    ensures Spread(a + b, part) == Spread(a, part) + Spread(b, part)
  {
    if a == [] {
      assert a + b == b;
    } else {
      SpreadConcat(a[1..], b, part);
      assert (a + b)[1..] == a[1..] + b;
    }
  }

  /** An element can be brought to the front. */
  lemma Fronted<T>(xs: seq<T>, x: T) returns (rest: seq<T>, a: seq<T>, b: seq<T>)
    requires x in xs
    ensures xs == a + [x] + b && rest == a + b && multiset(xs) == multiset{x} + multiset(rest) && |rest| == |xs| - 1
  {
    var i :| 0 <= i < |xs| && xs[i] == x;
    a, b := xs[..i], xs[i + 1..];
    rest := a + b;
    assert xs == a + [x] + b;
  }

  lemma {:induction false} SpreadPermutes<T, U>(xs: seq<T>, ys: seq<T>, part: T -> multiset<U>)
    requires Same(xs, ys)
    ensures Spread(xs, part) == Spread(ys, part)
  {
    if xs == [] {
      assert |ys| == |multiset(ys)| == 0;
    } else {
      var x := xs[0];
      assert x in multiset(ys);
      var rest, a, b := Fronted(ys, x);
      assert xs == [x] + xs[1..];
      assert multiset(xs[1..]) == multiset(xs) - multiset{x} == multiset(rest);
      SpreadPermutes(xs[1..], rest, part);
      hide Spread;
      SpreadConcat([x], xs[1..], part);
      SpreadConcat(a + [x], b, part);
      SpreadConcat(a, [x], part);
      SpreadConcat(a, b, part);
    }
  }

  lemma {:induction false} SpreadAgrees<T, U>(xs: seq<T>, p: T -> multiset<U>, q: T -> multiset<U>)
    requires forall x :: x in xs ==> p(x) == q(x)
    ensures Spread(xs, p) == Spread(xs, q)
  {
    if xs != [] {
      assert xs[0] in xs && forall x :: x in xs[1..] ==> x in xs;
      SpreadAgrees(xs[1..], p, q);
    }
  }

  // -- the operators of a query -----------------------------------------------------------------------

  lemma {:induction false} FilterSpreads<T(!new)>(ts: seq<T>, keep: T -> bool)
    ensures multiset(Filter(ts, keep)) == Spread(ts, t => if keep(t) then multiset{t} else multiset{})
  {
    if ts != [] {
      FilterSpreads(ts[1..], keep);
    }
  }

  lemma FilterPermutes<T(!new)>(ts: seq<T>, us: seq<T>, keep: T -> bool)
    requires Same(ts, us)
    ensures Same(Filter(ts, keep), Filter(us, keep))
  {
    FilterSpreads(ts, keep);
    FilterSpreads(us, keep);
    SpreadPermutes(ts, us, t => if keep(t) then multiset{t} else multiset{});
  }

  lemma {:induction false} MatchingSpreads<K>(on: Tuple<K> -> bool, t: Tuple<K>, key: K, rows: seq<Row>)
    ensures multiset(Matching(on, t, key, rows)) == Spread(rows, r => if on(t[key := r]) then multiset{t[key := r]} else multiset{})
  {
    if rows != [] {
      MatchingSpreads(on, t, key, rows[1..]);
    }
  }

  lemma JoinOnePermutes<K>(on: Tuple<K> -> bool, t: Tuple<K>, key: K, rows: seq<Row>, others: seq<Row>, outer: bool)
    requires Same(rows, others)
    ensures Same(JoinOne(on, t, key, rows, outer), JoinOne(on, t, key, others, outer))
  {
    MatchingSpreads(on, t, key, rows);
    MatchingSpreads(on, t, key, others);
    SpreadPermutes(rows, others, r => if on(t[key := r]) then multiset{t[key := r]} else multiset{});
    var x, y := Matching(on, t, key, rows), Matching(on, t, key, others);
    assert |x| == |multiset(x)| && |y| == |multiset(y)|;
  }

  lemma {:induction false} JoinAllSpreads<K>(on: Tuple<K> -> bool, ts: seq<Tuple<K>>, key: K, rows: seq<Row>, outer: bool)
    ensures multiset(JoinAll(on, ts, key, rows, outer)) == Spread(ts, t => multiset(JoinOne(on, t, key, rows, outer)))
  {
    hide JoinOne;
    if ts != [] {
      JoinAllSpreads(on, ts[1..], key, rows, outer);
    }
  }

  lemma JoinAllPermutes<K>(on: Tuple<K> -> bool, ts: seq<Tuple<K>>, us: seq<Tuple<K>>, key: K, rows: seq<Row>, others: seq<Row>, outer: bool)
    requires Same(ts, us) && Same(rows, others)
    ensures Same(JoinAll(on, ts, key, rows, outer), JoinAll(on, us, key, others, outer))
  {
    hide JoinOne;
    JoinAllSpreads(on, ts, key, rows, outer);
    JoinAllSpreads(on, us, key, others, outer);
    SpreadPermutes(ts, us, t => multiset(JoinOne(on, t, key, rows, outer)));
    forall t | t in us
      ensures multiset(JoinOne(on, t, key, rows, outer)) == multiset(JoinOne(on, t, key, others, outer))
    {
      JoinOnePermutes(on, t, key, rows, others, outer);
    }
    SpreadAgrees(us, t => multiset(JoinOne(on, t, key, rows, outer)), t => multiset(JoinOne(on, t, key, others, outer)));
  }

  lemma {:induction false} ScanSpreads<K>(key: K, rows: seq<Row>)
    ensures multiset(ScanRows(key, rows)) == Spread(rows, r => multiset{map[key := r]})
  {
    if rows != [] {
      ScanSpreads(key, rows[1..]);
      var rest := ScanRows(key, rows[1..]);
      assert ScanRows(key, rows) == [map[key := rows[0]]] + rest;
    }
  }

  lemma ScanPermutes<K>(key: K, rows: seq<Row>, others: seq<Row>)
    requires Same(rows, others)
    ensures Same(ScanRows(key, rows), ScanRows(key, others))
  {
    ScanSpreads(key, rows);
    ScanSpreads(key, others);
    SpreadPermutes(rows, others, r => multiset{map[key := r]});
  }

  // -- aggregates --------------------------------------------------------------------------------------

  lemma {:induction false} FieldsSpread(c: ColumnId, ts: seq<Tuple<TableId>>)
    ensures multiset(FieldOver(c, ts)) == Spread(ts, t => multiset{Field(t, c.table, c.name)})
  {
    if ts != [] {
      FieldsSpread(c, ts[1..]);
      assert FieldOver(c, ts) == [Field(ts[0], c.table, c.name)] + FieldOver(c, ts[1..]);
    }
  }

  lemma {:induction false} NonNullSpreads(vs: seq<Value>)
    ensures multiset(NonNull(vs)) == Spread(vs, v => if v == Null then multiset{} else multiset{v})
  {
    if vs != [] {
      NonNullSpreads(vs[1..]);
    }
  }

  lemma {:induction false} TotalConcat(a: seq<Value>, b: seq<Value>)
    ensures Total(a + b) == Total(a) + Total(b)
  {
    if a == [] {
      assert a + b == b;
    } else {
      TotalConcat(a[1..], b);
      assert (a + b)[1..] == a[1..] + b;
    }
  }

  lemma {:induction false} TotalPermutes(xs: seq<Value>, ys: seq<Value>)
    requires Same(xs, ys)
    ensures Total(xs) == Total(ys)
  {
    if xs == [] {
      assert |ys| == |multiset(ys)| == 0;
    } else {
      var x := xs[0];
      assert x in multiset(ys);
      var rest, a, b := Fronted(ys, x);
      assert xs == [x] + xs[1..];
      assert multiset(xs[1..]) == multiset(xs) - multiset{x} == multiset(rest);
      TotalPermutes(xs[1..], rest);
      TotalConcat(a + [x], b);
      TotalConcat(a, [x]);
      TotalConcat(a, b);
      TotalConcat([x], xs[1..]);
    }
  }

  /** Values are totally ordered. */
  lemma BelowIsTotal(a: Value, b: Value)
    ensures !(Below(a, b) && Below(b, a)) && (Below(a, b) || Below(b, a) || a == b)
  {
    if a.Text? && b.Text? {
      StringTrichotomy(a.s, b.s);
    }
  }

  lemma BelowIsTransitive(a: Value, b: Value, c: Value)
    requires Below(a, b) && Below(b, c)
    ensures Below(a, c)
  {
    if a.Text? && b.Text? && c.Text? {
      StringTransitive(a.s, b.s, c.s);
    }
  }

  lemma {:induction false} LeastIsLeast(vs: seq<Value>)
    requires vs != []
    ensures Least(vs) in vs && forall v :: v in vs ==> !Below(v, Least(vs))
  {
    hide Below;
    BelowIsTotal(vs[0], vs[0]);
    if |vs| > 1 {
      LeastIsLeast(vs[1..]);
      var rest := Least(vs[1..]);
      BelowIsTotal(rest, rest);
      forall v | v in vs
        ensures !Below(v, Least(vs))
      {
        BelowIsTotal(v, Least(vs));
        BelowIsTotal(rest, vs[0]);
        if v in vs[1..] && Below(v, vs[0]) && !Below(rest, vs[0]) {
          BelowIsTotal(v, rest);
          if rest != vs[0] && v != rest {
            BelowIsTransitive(v, vs[0], rest);
          }
        }
      }
    }
  }

  lemma {:induction false} GreatestIsGreatest(vs: seq<Value>)
    requires vs != []
    ensures Greatest(vs) in vs && forall v :: v in vs ==> !Below(Greatest(vs), v)
  {
    hide Below;
    BelowIsTotal(vs[0], vs[0]);
    if |vs| > 1 {
      GreatestIsGreatest(vs[1..]);
      var rest := Greatest(vs[1..]);
      BelowIsTotal(rest, rest);
      forall v | v in vs
        ensures !Below(Greatest(vs), v)
      {
        BelowIsTotal(v, Greatest(vs));
        BelowIsTotal(rest, vs[0]);
        if v in vs[1..] && Below(vs[0], v) && !Below(vs[0], rest) {
          BelowIsTotal(v, rest);
          if rest != vs[0] && v != rest {
            BelowIsTransitive(rest, vs[0], v);
          }
        }
      }
    }
  }

  lemma SameElements<T>(xs: seq<T>, ys: seq<T>)
    requires Same(xs, ys)
    ensures |xs| == |ys| && forall x :: x in xs <==> x in ys
  {
    assert |xs| == |multiset(xs)| && |ys| == |multiset(ys)|;
    assert forall x :: x in xs <==> x in multiset(xs);
    assert forall x :: x in ys <==> x in multiset(ys);
  }

  /** No aggregate depends on the order of its inputs. */
  lemma AggregatePermutes(op: AggregateOp, xs: seq<Value>, ys: seq<Value>)
    requires Same(xs, ys)
    ensures Aggregated(op, xs) == Aggregated(op, ys)
  {
    hide Total, Least, Greatest, NonNull;
    NonNullSpreads(xs);
    NonNullSpreads(ys);
    SpreadPermutes(xs, ys, v => if v == Null then multiset{} else multiset{v});
    var a, b := NonNull(xs), NonNull(ys);
    SameElements(a, b);
    TotalPermutes(a, b);
    assert Distinct(a) == Distinct(b);
    if a != [] {
      LeastIsLeast(a);
      LeastIsLeast(b);
      BelowIsTotal(Least(a), Least(b));
      GreatestIsGreatest(a);
      GreatestIsGreatest(b);
      BelowIsTotal(Greatest(a), Greatest(b));
    }
  }

  /** No measure does. */
  lemma {:induction false} MeasurePermutes(m: Measure, engine: Engine, ts: seq<Tuple<TableId>>, us: seq<Tuple<TableId>>)
    requires Same(ts, us)
    ensures Served(m, engine, ts) == Served(m, engine, us) && ContractMeasure(m, engine, ts) == ContractMeasure(m, engine, us)
  {
    match m
    case Aggregate(op, None) => SameElements(ts, us);
    case Aggregate(op, Some(c)) =>
      FieldsSpread(c, ts);
      FieldsSpread(c, us);
      SpreadPermutes(ts, us, t => multiset{Field(t, c.table, c.name)});
      AggregatePermutes(op, FieldOver(c, ts), FieldOver(c, us));
    case Ratio(n, d, _) =>
      MeasurePermutes(n, engine, ts, us);
      MeasurePermutes(d, engine, ts, us);
  }
}
