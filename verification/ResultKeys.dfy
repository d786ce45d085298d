/**
  What the duplicate-key check can see. The rows of a compiled grouped query never repeat a key,
  whatever the joins did, but the check reads each key column by its name: a grouping column
  behind an earlier one of the same name is never looked at.
*/
module ResultKeys {
  import opened Errors
  import opened Values
  import opened Expressions
  import opened Catalog
  import opened Ordering
  import opened Plans
  import opened Relational
  import opened SQ = SqlQuery
  import opened PlanMeaning
  import opened RatioMeaning
  import opened Emissions
  import opened Lowering
  import opened Binder
  import opened Scoping
  import opened EndToEnd
  import opened ValidatorAcceptance
  import opened Results

  // -- the columns the check looks at ------------------------------------------------------------------

  /** No earlier column has the name of this one. */
  predicate Seen(names: seq<string>, p: nat)
    requires p < |names|
  {
    forall q :: 0 <= q < p ==> names[q] != names[p]
  }

  predicate AgreeWhereSeen(names: seq<string>, a: seq<Value>, b: seq<Value>)
    requires |names| <= |a| && |names| <= |b|
  {
    forall p :: 0 <= p < |names| && Seen(names, p) ==> a[p] == b[p]
  }

  lemma KeyReadsSeen(names: seq<string>, measure: string, a: seq<Value>, b: seq<Value>)
    requires |a| == |b| == |names| + 1
    ensures forall name :: name in names ==> name in names + [measure]
    ensures KeyAt(names + [measure], names, a) == KeyAt(names + [measure], names, b) <==> AgreeWhereSeen(names, a, b)
  {
    hide KeyAt, IndexOf;
    var columns := names + [measure];
    assert forall name :: name in names ==> name in columns;
    var x, y := KeyAt(columns, names, a), KeyAt(columns, names, b);
    forall i | 0 <= i < |names|
      ensures var n := IndexOf(columns, names[i]); n <= i && names[n] == names[i] && Seen(names, n) && x[i] == a[n] && y[i] == b[n]
      ensures Seen(names, i) ==> IndexOf(columns, names[i]) == i
    {
      KeyAtIs(columns, names, a, i);
      KeyAtIs(columns, names, b, i);
      var n := IndexOf(columns, names[i]);
      assert columns[i] == names[i];
      assert n <= i;
      assert columns[n] == names[n];
      forall q | 0 <= q < n
        ensures names[q] != names[n]
      {
        assert columns[q] == names[q];
      }
    }
    if AgreeWhereSeen(names, a, b) {
      assert forall i :: 0 <= i < |names| ==> x[i] == y[i];
    }
    if x == y {
      forall p | 0 <= p < |names| && Seen(names, p)
        ensures a[p] == b[p]
      {
        assert x[p] == y[p];
      }
    }
  }

  /** The check blocks exactly when two rows agree wherever it looks. */
  lemma UniqueExactly(names: seq<string>, measure: string, rows: seq<seq<Value>>)
    requires forall r :: r in rows ==> |r| == |names| + 1
    ensures forall name :: name in names ==> name in names + [measure]
    ensures KeysUnique(names + [measure], names, rows) <==> ApartWhereSeen(names, rows)
  {
    hide KeyAt, RowKeys, AgreeWhereSeen;
    var columns := names + [measure];
    assert forall name :: name in names ==> name in columns;
    var ks := RowKeys(columns, names, rows);
    forall i, j | 0 <= i < j < |rows|
      ensures ks[i] == ks[j] <==> AgreeWhereSeen(names, rows[i], rows[j])
    {
      assert rows[i] in rows && rows[j] in rows;
      RowKeyIs(columns, names, rows, i);
      RowKeyIs(columns, names, rows, j);
      KeyReadsSeen(names, measure, rows[i], rows[j]);
    }
  }

  // -- ORDER BY and LIMIT ----------------------------------------------------------------------------

  lemma WithoutOne<T>(xs: seq<T>, n: nat)
    requires n < |xs|
    ensures multiset(xs[..n] + xs[n + 1..]) == multiset(xs) - multiset{xs[n]}
  {
    assert xs == xs[..n] + [xs[n]] + xs[n + 1..];
  }

  lemma PairInside<T>(xs: seq<T>, i: nat, j: nat)
    requires i < j < |xs|
    ensures multiset{xs[i], xs[j]} <= multiset(xs)
  {
    WithoutOne(xs, i);
    var rest := xs[..i] + xs[i + 1..];
    assert rest[j - 1] == xs[j];
    assert xs[j] in multiset(rest);
    assert multiset{xs[i], xs[j]} == multiset{xs[i]} + multiset{xs[j]};
  }

  lemma TwoPlaces<T>(xs: seq<T>, x: T, y: T) returns (i: nat, j: nat)
    requires multiset{x, y} <= multiset(xs)
    ensures i < j < |xs| && ((xs[i] == x && xs[j] == y) || (xs[i] == y && xs[j] == x))
  {
    StillThere(multiset(xs), x, y);
    var n :| 0 <= n < |xs| && xs[n] == x;
    WithoutOne(xs, n);
    var rest := xs[..n] + xs[n + 1..];
    assert y in multiset(rest);
    var m :| 0 <= m < |rest| && rest[m] == y;
    if m < n {
      i, j := m, n;
    } else {
      assert rest[m] == xs[n + 1..][m - n] == xs[m + 1];
      i, j := n, m + 1;
    }
  }

  lemma StillThere<T>(xs: multiset<T>, x: T, y: T)
    requires multiset{x, y} <= xs
    ensures x in xs && y in xs - multiset{x}
  {
    assert multiset{x, y}[x] >= 1 && multiset{x, y}[y] >= 1;
    if x == y {
      assert multiset{x, y}[x] == 2;
    }
  }

  predicate ApartWhereSeen(names: seq<string>, rows: seq<seq<Value>>)
    requires forall r :: r in rows ==> |r| == |names| + 1
  {
    forall i, j :: 0 <= i < j < |rows| ==> !AgreeWhereSeen(names, rows[i], rows[j])
  }

  /** Rows that differ where the check looks do so however they are arranged and cut. */
  lemma ApartWhenDelivered(names: seq<string>, limit: Option<nat>, rows: seq<seq<Value>>, arranged: seq<seq<Value>>)
    requires (forall r :: r in rows ==> |r| == |names| + 1) && ApartWhereSeen(names, rows) && Arranges(arranged, rows)
    ensures forall r :: r in Delivered(limit, arranged) ==> |r| == |names| + 1
    ensures ApartWhereSeen(names, Delivered(limit, arranged))
  {
    hide AgreeWhereSeen;
    forall r | r in arranged
      ensures r in rows
    {
      assert r in multiset(arranged);
    }
    var out := Delivered(limit, arranged);
    assert forall i :: 0 <= i < |out| ==> out[i] == arranged[i];
    forall i, j | 0 <= i < j < |out|
      ensures !AgreeWhereSeen(names, out[i], out[j])
    {
      PairInside(arranged, i, j);
      var m, n := TwoPlaces(rows, arranged[i], arranged[j]);
      AgreementIsMutual(names, rows[m], rows[n]);
    }
  }

  lemma AgreementIsMutual(names: seq<string>, a: seq<Value>, b: seq<Value>)
    requires |a| == |b| == |names| + 1
    ensures AgreeWhereSeen(names, a, b) <==> AgreeWhereSeen(names, b, a)
  {
  }

  // -- grouping expressions and groups -------------------------------------------------------------------

  /** The value of a grouping entry: the time bucket, or a column. */
  function Grouping(plan: LogicalPlan, engine: SQ.Engine, e: Option<ColumnId>, t: Tuple<TableId>): Value {
    match e
    case Some(c) => Field(t, c.table, c.name)
    case None => if plan.timeBucket.None? then Null
                 else var b := plan.timeBucket.value; engine.bucket(b.grain, ReportingZone(b.zone), Field(t, b.column.table, b.column.name))
  }

  /** The time bucket, if there is one, is the first grouping entry and the only one without a column. */
  predicate BucketFirst(plan: LogicalPlan) {
    && (plan.timeBucket.Some? ==> plan.groupBy != [] && plan.groupBy[0].1.None?)
    && forall p :: 0 <= p < |plan.groupBy| && plan.groupBy[p].1.None? ==> p == 0 && plan.timeBucket.Some?
  }

  lemma {:induction false} ColumnKeys(gs: seq<(string, Option<ColumnId>)>, t: Tuple<TableId>)
    requires forall p :: 0 <= p < |gs| ==> gs[p].1.Some?
    ensures |DimensionKey(gs, t)| == |gs| && (HasDimension(gs) <==> gs != [])
    ensures forall p :: 0 <= p < |gs| ==> DimensionKey(gs, t)[p] == Field(t, gs[p].1.value.table, gs[p].1.value.name)
  {
    if gs != [] {
      ColumnKeys(gs[1..], t);
    }
  }

  /** A key holds the values of the grouping entries, in order. */
  lemma KeyValues(plan: LogicalPlan, engine: SQ.Engine, t: Tuple<TableId>)
    requires BucketFirst(plan)
    ensures var k := PlanKey(plan, engine)(t);
            |k| == |plan.groupBy| && forall p :: 0 <= p < |k| ==> k[p] == Grouping(plan, engine, plan.groupBy[p].1, t)
    ensures Grouped(plan) <==> plan.groupBy != []
  {
    if plan.timeBucket.Some? {
      BucketedKey(plan, engine, t);
    } else {
      hide DimensionKey, HasDimension;
      ColumnKeys(plan.groupBy, t);
      assert [] + DimensionKey(plan.groupBy, t) == DimensionKey(plan.groupBy, t);
    }
  }

  lemma WithoutBucket(gs: seq<(string, Option<ColumnId>)>, t: Tuple<TableId>)
    requires gs != [] && gs[0].1.None?
    ensures DimensionKey(gs, t) == DimensionKey(gs[1..], t)
  {
    assert [] + DimensionKey(gs[1..], t) == DimensionKey(gs[1..], t);
  }

  lemma BucketedKey(plan: LogicalPlan, engine: SQ.Engine, t: Tuple<TableId>)
    requires BucketFirst(plan) && plan.timeBucket.Some?
    ensures var k := PlanKey(plan, engine)(t);
            |k| == |plan.groupBy| && forall p :: 0 <= p < |k| ==> k[p] == Grouping(plan, engine, plan.groupBy[p].1, t)
  {
    var gs, columns := plan.groupBy, DimensionKey(plan.groupBy[1..], t);
    WithoutBucket(gs, t);
    hide DimensionKey;
    ColumnKeys(gs[1..], t);
    var k := PlanKey(plan, engine)(t);
    assert k == [Grouping(plan, engine, None, t)] + columns;
    hide Grouping, PlanKey;
    forall p | 0 < p < |k|
      ensures k[p] == Grouping(plan, engine, gs[p].1, t)
    {
      assert k[p] == columns[p - 1] && gs[1..][p - 1] == gs[p];
    }
  }

  /** HAVING keeps the group. */
  predicate KeptGroup(plan: LogicalPlan, names: Names, ts: seq<Tuple<TableId>>, ks: seq<Key>, k: Key)
    requires |ts| == |ks|
  {
    Holds(plan.having, names)(Representative(GroupMembers(Grouped(plan), ts, ks, k)))
  }

  lemma GroupStep(plan: LogicalPlan, names: Names, engine: SQ.Engine, ts: seq<Tuple<TableId>>, ks: seq<Key>, groups: seq<Key>)
    requires |ts| == |ks| && groups != []
    ensures var k, rest := groups[0], ServedGroups(plan, names, engine, ts, ks, groups[1..]);
            ServedGroups(plan, names, engine, ts, ks, groups) ==
              (if KeptGroup(plan, names, ts, ks, k)
               then [k + ServedValues(plan.measures, engine, GroupMembers(Grouped(plan), ts, ks, k))] else []) + rest
  {
    hide Holds, GroupMembers, ServedValues;
  }

  /** Each row starts with a key, and different rows with different ones. */
  predicate KeyedRows(rows: seq<seq<Value>>, width: nat) {
    && (forall r :: r in rows ==> |r| >= width)
    && forall i, j :: 0 <= i < j < |rows| ==> rows[i][..width] != rows[j][..width]
  }

  /** The rows start with the keys of the kept groups, of each group once. */
  predicate RowsOfKept(plan: LogicalPlan, names: Names, ts: seq<Tuple<TableId>>, ks: seq<Key>, groups: seq<Key>, rows: seq<seq<Value>>, n: nat)
    requires |ts| == |ks| && KeyedRows(rows, n)
  {
    && (forall r :: r in rows ==> r[..n] in groups && KeptGroup(plan, names, ts, ks, r[..n]))
    && forall k :: k in groups && KeptGroup(plan, names, ts, ks, k) ==> exists i :: 0 <= i < |rows| && rows[i][..n] == k
  }

  lemma {:induction false} ServedRowsAreKeyed(plan: LogicalPlan, names: Names, engine: SQ.Engine, ts: seq<Tuple<TableId>>, ks: seq<Key>,
                                              groups: seq<Key>, n: nat)
    requires |ts| == |ks| && NoDuplicates(groups) && forall k :: k in groups ==> |k| == n
    ensures var rows := ServedGroups(plan, names, engine, ts, ks, groups);
            && (forall r :: r in rows ==> |r| == n + |plan.measures|)
            && KeyedRows(rows, n) && RowsOfKept(plan, names, ts, ks, groups, rows, n)
  {
    hide KeptGroup, GroupMembers, ServedValues, ServedGroups, KeyedRows, RowsOfKept;
    if groups == [] {
      NoGroups(plan, names, engine, ts, ks, n);
    } else {
      var k, later := groups[0], groups[1..];
      OtherGroups(groups);
      ServedRowsAreKeyed(plan, names, engine, ts, ks, later, n);
      GroupStep(plan, names, engine, ts, ks, groups);
      var row := k + ServedValues(plan.measures, engine, GroupMembers(Grouped(plan), ts, ks, k));
      var rest := ServedGroups(plan, names, engine, ts, ks, later);
      assert row[..n] == k;
      assert [] + rest == rest;
      OneMoreGroup(plan, names, ts, ks, groups, row, rest, n);
    }
  }

  lemma OtherGroups(groups: seq<Key>)
    requires NoDuplicates(groups) && groups != []
    ensures NoDuplicates(groups[1..]) && groups[0] !in groups[1..] && forall g :: g in groups <==> g == groups[0] || g in groups[1..]
  {
    assert forall i :: 0 <= i < |groups[1..]| ==> groups[1..][i] == groups[i + 1];
  }

  lemma NoGroups(plan: LogicalPlan, names: Names, engine: SQ.Engine, ts: seq<Tuple<TableId>>, ks: seq<Key>, n: nat)
    requires |ts| == |ks|
    ensures ServedGroups(plan, names, engine, ts, ks, []) == [] && KeyedRows([], n) && RowsOfKept(plan, names, ts, ks, [], [], n)
  {
  }

  lemma OneMoreGroup(plan: LogicalPlan, names: Names, ts: seq<Tuple<TableId>>, ks: seq<Key>, groups: seq<Key>,
                     row: seq<Value>, rest: seq<seq<Value>>, n: nat)
    requires |ts| == |ks| && NoDuplicates(groups) && groups != [] && |row| >= n && row[..n] == groups[0]
    requires KeyedRows(rest, n) && RowsOfKept(plan, names, ts, ks, groups[1..], rest, n)
    ensures if KeptGroup(plan, names, ts, ks, groups[0])
            then KeyedRows([row] + rest, n) && RowsOfKept(plan, names, ts, ks, groups, [row] + rest, n)
            else RowsOfKept(plan, names, ts, ks, groups, rest, n)
  {
    hide KeptGroup;
    OtherGroups(groups);
    if KeptGroup(plan, names, ts, ks, groups[0]) {
      var rows := [row] + rest;
      assert forall r :: r in rows <==> r == row || r in rest;
      forall k | k in groups && KeptGroup(plan, names, ts, ks, k)
        ensures exists i :: 0 <= i < |rows| && rows[i][..n] == k
      {
        if k in groups[1..] {
          var i :| 0 <= i < |rest| && rest[i][..n] == k;
          assert rows[i + 1][..n] == k;
        } else {
          assert rows[0][..n] == k;
        }
      }
      forall r | r in rest
        ensures r[..n] != row[..n]
      {
      }
      assert KeyedRows(rows, n);
    }
  }

  // -- when the check blocks ------------------------------------------------------------------------------

  /** The key of a group that reaches the result. */
  predicate KeptKey(plan: LogicalPlan, names: Names, engine: SQ.Engine, db: Database, k: Key) {
    var ts := SourceRows(plan, names, db);
    var ks := KeysOf(ts, PlanKey(plan, engine));
    k in GroupKeys(Grouped(plan), ks) && KeptGroup(plan, names, ts, ks, k)
  }

  /** Two different groups look the same to the check. */
  ghost predicate Clash(plan: LogicalPlan, names: Names, engine: SQ.Engine, db: Database) {
    exists a, b :: KeptKey(plan, names, engine, db, a) && KeptKey(plan, names, engine, db, b) && a != b
                   && |a| == |b| == |plan.outputGrain| && AgreeWhereSeen(plan.outputGrain, a, b)
  }

  /** The grouping entries are named by the output grain, the bucket first, and there is one measure. */
  predicate Shaped(plan: LogicalPlan) {
    BucketFirst(plan) && plan.outputGrain == AliasesOf(plan.groupBy) && |plan.measures| == 1
  }

  lemma KeysAreWide(plan: LogicalPlan, engine: SQ.Engine, ts: seq<Tuple<TableId>>)
    requires Shaped(plan)
    ensures forall k :: k in GroupKeys(Grouped(plan), KeysOf(ts, PlanKey(plan, engine))) ==> |k| == |plan.outputGrain|
    ensures forall k :: k in GroupKeys(Grouped(plan), KeysOf(ts, PlanKey(plan, engine))) && Grouped(plan) ==>
              exists t :: t in ts && k == PlanKey(plan, engine)(t)
  {
    hide Grouped, BucketFirst, PlanKey;
    var ks := KeysOf(ts, PlanKey(plan, engine));
    KeyValues(plan, engine, map[]);
    forall k | k in GroupKeys(Grouped(plan), ks) && Grouped(plan)
      ensures exists t :: t in ts && k == PlanKey(plan, engine)(t) && |k| == |plan.outputGrain|
    {
      var i :| 0 <= i < |ks| && ks[i] == k;
      KeyValues(plan, engine, ts[i]);
      assert ts[i] in ts;
    }
  }

  lemma PrefixesDecide(names: seq<string>, a: seq<Value>, b: seq<Value>)
    requires |a| == |b| == |names| + 1
    ensures AgreeWhereSeen(names, a, b) <==> AgreeWhereSeen(names, a[..|names|], b[..|names|])
  {
  }

  /** Two rows with different keys look the same. */
  ghost predicate RowsClash(names: seq<string>, rows: seq<seq<Value>>) {
    exists x, y :: x in rows && y in rows && |x| == |y| == |names| + 1
                   && x[..|names|] != y[..|names|] && AgreeWhereSeen(names, x[..|names|], y[..|names|])
  }

  lemma ApartOrClash(names: seq<string>, rows: seq<seq<Value>>)
    requires forall r :: r in rows ==> |r| == |names| + 1
    requires forall i, j :: 0 <= i < j < |rows| ==> rows[i][..|names|] != rows[j][..|names|]
    ensures ApartWhereSeen(names, rows) <==> !RowsClash(names, rows)
  {
    hide AgreeWhereSeen;
    if !ApartWhereSeen(names, rows) {
      var i, j :| 0 <= i < j < |rows| && AgreeWhereSeen(names, rows[i], rows[j]);
      assert rows[i] in rows && rows[j] in rows;
      PrefixesDecide(names, rows[i], rows[j]);
    }
    if RowsClash(names, rows) {
      var x, y :| x in rows && y in rows && |x| == |y| == |names| + 1
                  && x[..|names|] != y[..|names|] && AgreeWhereSeen(names, x[..|names|], y[..|names|]);
      var i :| 0 <= i < |rows| && rows[i] == x;
      var j :| 0 <= j < |rows| && rows[j] == y;
      PrefixesDecide(names, x, y);
      AgreementIsMutual(names, x, y);
      if i < j {
        assert AgreeWhereSeen(names, rows[i], rows[j]);
      } else {
        assert AgreeWhereSeen(names, rows[j], rows[i]);
      }
    }
  }

  /** The kept keys are the keys of the served rows. */
  lemma ServedKeys(plan: LogicalPlan, names: Names, engine: SQ.Engine, db: Database)
    requires Shaped(plan)
    ensures var rows, n := ServedRows(plan, names, engine, db), |plan.outputGrain|;
            && (forall r :: r in rows ==> |r| == n + 1 && KeptKey(plan, names, engine, db, r[..n]))
            && (forall i, j :: 0 <= i < j < |rows| ==> rows[i][..n] != rows[j][..n])
            && forall k :: KeptKey(plan, names, engine, db, k) ==> |k| == n && exists r :: r in rows && r[..n] == k
  {
    hide Grouped, BucketFirst, PlanKey, SourceRows, KeptGroup, ServedGroups, AliasesOf, FirstSeen;
    var n, rows := |plan.outputGrain|, ServedRows(plan, names, engine, db);
    var ts := SourceRows(plan, names, db);
    var ks := KeysOf(ts, PlanKey(plan, engine));
    KeysAreWide(plan, engine, ts);
    ServedRowsAreKeyed(plan, names, engine, ts, ks, GroupKeys(Grouped(plan), ks), n);
    forall k | KeptKey(plan, names, engine, db, k)
      ensures |k| == n && exists r :: r in rows && r[..n] == k
    {
      var i :| 0 <= i < |rows| && rows[i][..n] == k;
      assert rows[i] in rows;
    }
  }

  /** On every database, the served rows are apart for the check exactly when no two kept groups clash. */
  lemma ApartExactly(plan: LogicalPlan, names: Names, engine: SQ.Engine, db: Database)
    requires Shaped(plan)
    ensures var rows := ServedRows(plan, names, engine, db);
            && (forall r :: r in rows ==> |r| == |plan.outputGrain| + 1)
            && (forall i, j :: 0 <= i < j < |rows| ==> rows[i][..|plan.outputGrain|] != rows[j][..|plan.outputGrain|])
            && (ApartWhereSeen(plan.outputGrain, rows) <==> !Clash(plan, names, engine, db))
  {
    hide Shaped, ServedRows, AgreeWhereSeen, KeptKey, ApartWhereSeen;
    var grain, rows := plan.outputGrain, ServedRows(plan, names, engine, db);
    ServedKeys(plan, names, engine, db);
    ApartOrClash(grain, rows);
    if Clash(plan, names, engine, db) {
      var a, b :| KeptKey(plan, names, engine, db, a) && KeptKey(plan, names, engine, db, b) && a != b
                  && |a| == |b| == |grain| && AgreeWhereSeen(grain, a, b);
      var x :| x in rows && x[..|grain|] == a;
      var y :| y in rows && y[..|grain|] == b;
      assert RowsClash(grain, rows);
    }
  }

  // -- names that stand for their expressions ----------------------------------------------------------

  /** The grouping expression stands in some column that the check looks at. */
  predicate ExpressionSeen(plan: LogicalPlan, e: Option<ColumnId>)
    requires |plan.outputGrain| == |plan.groupBy|
  {
    exists q :: 0 <= q < |plan.groupBy| && Seen(plan.outputGrain, q) && plan.groupBy[q].1 == e
  }

  predicate EveryExpressionSeen(plan: LogicalPlan) {
    |plan.outputGrain| == |plan.groupBy| && forall p :: 0 <= p < |plan.groupBy| ==> ExpressionSeen(plan, plan.groupBy[p].1)
  }

  lemma {:induction false} FirstOfItsName(names: seq<string>, p: nat) returns (q: nat)
    requires p < |names|
    ensures q <= p && names[q] == names[p] && Seen(names, q)
  {
    if r :| 0 <= r < p && names[r] == names[p] {
      q := FirstOfItsName(names, r);
    } else {
      q := p;
    }
  }

  /** It is enough that equal names stand for equal expressions. */
  lemma EqualNamesEqualExpressions(plan: LogicalPlan)
    requires |plan.outputGrain| == |plan.groupBy|
    requires forall p, q :: 0 <= p < |plan.groupBy| && 0 <= q < |plan.groupBy| && plan.outputGrain[p] == plan.outputGrain[q] ==>
               plan.groupBy[p].1 == plan.groupBy[q].1
    ensures EveryExpressionSeen(plan)
  {
    forall p | 0 <= p < |plan.groupBy|
      ensures ExpressionSeen(plan, plan.groupBy[p].1)
    {
      var q := FirstOfItsName(plan.outputGrain, p);
      assert plan.outputGrain[q] == plan.outputGrain[p];
      assert q < |plan.groupBy| && plan.groupBy[q].1 == plan.groupBy[p].1;
    }
  }

  lemma SeenDecides(plan: LogicalPlan, engine: SQ.Engine, t: Tuple<TableId>, u: Tuple<TableId>)
    requires Shaped(plan) && EveryExpressionSeen(plan)
    ensures |PlanKey(plan, engine)(t)| == |PlanKey(plan, engine)(u)| == |plan.outputGrain|
    ensures AgreeWhereSeen(plan.outputGrain, PlanKey(plan, engine)(t), PlanKey(plan, engine)(u)) ==>
              PlanKey(plan, engine)(t) == PlanKey(plan, engine)(u)
  {
    hide BucketFirst, PlanKey, Grouping, Seen, AliasesOf;
    assert |plan.outputGrain| == |plan.groupBy| by { NamedPerEntry(plan); }
    KeyValues(plan, engine, t);
    KeyValues(plan, engine, u);
    var a, b := PlanKey(plan, engine)(t), PlanKey(plan, engine)(u);
    if AgreeWhereSeen(plan.outputGrain, a, b) {
      forall p | 0 <= p < |a|
        ensures a[p] == b[p]
      {
        assert ExpressionSeen(plan, plan.groupBy[p].1);
        var q :| 0 <= q < |plan.groupBy| && Seen(plan.outputGrain, q) && plan.groupBy[q].1 == plan.groupBy[p].1;
        assert a[q] == b[q];
      }
    }
  }

  lemma NamedPerEntry(plan: LogicalPlan)
    requires Shaped(plan)
    ensures |plan.outputGrain| == |plan.groupBy|
  {
  }

  /** Then no two groups ever clash. */
  lemma SeenExpressionsNeverClash(plan: LogicalPlan, names: Names, engine: SQ.Engine, db: Database)
    requires Shaped(plan) && EveryExpressionSeen(plan)
    ensures !Clash(plan, names, engine, db)
  {
    hide Grouped, Shaped, EveryExpressionSeen, PlanKey, SourceRows, KeptGroup, AgreeWhereSeen;
    var ts := SourceRows(plan, names, db);
    KeysAreWide(plan, engine, ts);
    if Clash(plan, names, engine, db) {
      var a, b :| KeptKey(plan, names, engine, db, a) && KeptKey(plan, names, engine, db, b) && a != b
                  && |a| == |b| == |plan.outputGrain| && AgreeWhereSeen(plan.outputGrain, a, b);
      if Grouped(plan) {
        var t :| t in ts && a == PlanKey(plan, engine)(t);
        var u :| u in ts && b == PlanKey(plan, engine)(u);
        SeenDecides(plan, engine, t, u);
      }
    }
  }

  // -- accepted requests -------------------------------------------------------------------------------------

  lemma GroupsAreShaped(plan: LogicalPlan, time: Option<BoundTime>, ds: seq<BoundDimension>)
    requires plan.timeBucket == BucketOf(time)
    requires plan.groupBy == (if plan.timeBucket.Some? then [(plan.timeBucket.value.alias, None)] else []) + DimensionGroups(ds)
    ensures BucketFirst(plan)
  {
    var head: seq<(string, Option<ColumnId>)> := if plan.timeBucket.Some? then [(plan.timeBucket.value.alias, None)] else [];
    var columns := DimensionGroups(ds);
    assert plan.groupBy == head + columns && forall g :: g in columns ==> g.1.Some?;
  }

  lemma ContractShape(bundle: Bundle, scope: Scope, request: Request, r: BindResult)
    requires BoundFrom(bundle, scope, request, r)
    ensures |r.plan.metrics| == 1
    ensures r.plan.contract.columns == r.plan.contract.grain + [r.plan.metrics[0].alias]
    ensures r.plan.contract.uniqueKeys == r.plan.contract.grain
  {
    hide ClosureFor, JoinsFor, Authorized;
  }

  /** The contract's grain names the grouping entries of an accepted request's plan. */
  lemma AcceptedPlansAreShaped(bundle: Bundle, scope: Scope, request: Request, r: BindResult, plan: LogicalPlan)
    requires BoundFrom(bundle, scope, request, r) && LoweredFrom(bundle, scope, r, plan)
    ensures Shaped(plan) && |r.plan.metrics| == 1
    ensures plan.outputGrain == r.plan.contract.grain == r.plan.contract.uniqueKeys
    ensures r.plan.contract.columns == r.plan.contract.grain + [r.plan.metrics[0].alias]
  {
    hide BoundFrom, LowerPlan, BundleWellFormed, CatalogPublished, BucketFirst, WhereOf, BucketOf;
    OutputNamesAreColumns(bundle, scope, request, r, plan);
    ContractShape(bundle, scope, request, r);
    LoweredParts(bundle, scope, r, plan);
    GroupsAreShaped(plan, r.plan.time, r.plan.dimensions);
  }

  /** What the check says of served rows. */
  lemma ServedCheck(plan: LogicalPlan, names: Names, engine: SQ.Engine, db: Database, c: Contract, measure: string)
    requires Shaped(plan) && c == Contract(plan.outputGrain + [measure], plan.outputGrain, plan.outputGrain)
    ensures var rows := ServedRows(plan, names, engine, db);
            && WellShaped(c, rows) && KeyedRows(rows, |c.grain|)
            && (KeysUnique(c.columns, c.uniqueKeys, rows) <==> !Clash(plan, names, engine, db))
  {
    hide Shaped, ServedRows, Clash, KeysUnique, ApartWhereSeen;
    ApartExactly(plan, names, engine, db);
    UniqueExactly(plan.outputGrain, measure, ServedRows(plan, names, engine, db));
  }

  lemma DeliveredCheck(plan: LogicalPlan, names: Names, engine: SQ.Engine, db: Database, c: Contract, measure: string, arranged: seq<seq<Value>>)
    requires Shaped(plan) && c == Contract(plan.outputGrain + [measure], plan.outputGrain, plan.outputGrain)
    requires EveryExpressionSeen(plan) && Arranges(arranged, ServedRows(plan, names, engine, db))
    ensures var rows := Delivered(plan.limit, arranged);
            WellShaped(c, rows) && KeysUnique(c.columns, c.uniqueKeys, rows)
  {
    hide Shaped, ServedRows, Clash, KeysUnique, ApartWhereSeen, Arranges, Delivered, EveryExpressionSeen;
    SeenExpressionsNeverClash(plan, names, engine, db);
    ApartExactly(plan, names, engine, db);
    ApartWhenDelivered(plan.outputGrain, plan.limit, ServedRows(plan, names, engine, db), arranged);
    UniqueExactly(plan.outputGrain, measure, Delivered(plan.limit, arranged));
  }

  lemma ExecutedAreServed(bundle: Bundle, scope: Scope, request: Request, r: BindResult, plan: LogicalPlan,
                          parameters: map<string, Value>, engine: SQ.Engine, db: Database)
    requires Ready(bundle, scope, request, r, plan, parameters)
    ensures Runnable(bundle, plan, scope, parameters)
    ensures Executed(bundle, plan, scope, parameters, engine, db)
         == ServedRows(plan, EnvOf(bundle, plan, scope, parameters).names, engine, db)
    ensures Shaped(plan)
    ensures exists measure :: r.plan.contract == Contract(plan.outputGrain + [measure], plan.outputGrain, plan.outputGrain)
  {
    hide Ready, Runnable, Executed, Shaped, ServedRows, PlanRows, RowsRight, EnvOf;
    ReadyIsLowered(bundle, scope, request, r, plan, parameters);
    AcceptedPlansAreShaped(bundle, scope, request, r, plan);
    AcceptedRequestsMeanWhatTheyAsk(bundle, scope, request, r, plan, parameters, engine, db);
    assert r.plan.contract == Contract(plan.outputGrain + [r.plan.metrics[0].alias], plan.outputGrain, plan.outputGrain);
  }

  /**
    For every accepted request, every database and every engine: the executed rows have pairwise
    different keys, and the check passes them exactly when no two kept groups agree wherever it
    looks. Overlapping versions that double count never show as duplicate keys, so the check cannot
    replace the attestation.
  */
  lemma CheckBlocksExactly(bundle: Bundle, scope: Scope, request: Request, r: BindResult, plan: LogicalPlan,
                           parameters: map<string, Value>, engine: SQ.Engine, db: Database)
    requires Ready(bundle, scope, request, r, plan, parameters)
    ensures Runnable(bundle, plan, scope, parameters)
    ensures var rows, c := Executed(bundle, plan, scope, parameters, engine, db), r.plan.contract;
            && WellShaped(c, rows) && KeyedRows(rows, |c.grain|)
            && (KeysUnique(c.columns, c.uniqueKeys, rows) <==>
                  !Clash(plan, EnvOf(bundle, plan, scope, parameters).names, engine, db))
  {
    hide Ready, Runnable, Executed, Shaped, ServedRows, Clash, KeysUnique, KeyedRows, EnvOf;
    ExecutedAreServed(bundle, scope, request, r, plan, parameters, engine, db);
    var measure :| r.plan.contract == Contract(plan.outputGrain + [measure], plan.outputGrain, plan.outputGrain);
    ServedCheck(plan, EnvOf(bundle, plan, scope, parameters).names, engine, db, r.plan.contract, measure);
  }

  /**
    When every grouping expression is seen, in particular when equal names stand for equal
    expressions, the check never blocks what is delivered, however it is arranged and cut.
  */
  lemma SeenExpressionsNeverBlock(bundle: Bundle, scope: Scope, request: Request, r: BindResult, plan: LogicalPlan,
                                  parameters: map<string, Value>, engine: SQ.Engine, db: Database)
    requires Ready(bundle, scope, request, r, plan, parameters) && EveryExpressionSeen(plan)
    ensures Runnable(bundle, plan, scope, parameters)
    ensures forall arranged :: Arranges(arranged, Executed(bundle, plan, scope, parameters, engine, db)) ==>
              var rows, c := Delivered(plan.limit, arranged), r.plan.contract;
              WellShaped(c, rows) && KeysUnique(c.columns, c.uniqueKeys, rows)
  {
    hide Ready, Runnable, Executed, Shaped, ServedRows, KeysUnique, EnvOf, Arranges, Delivered, EveryExpressionSeen;
    ExecutedAreServed(bundle, scope, request, r, plan, parameters, engine, db);
    var measure :| r.plan.contract == Contract(plan.outputGrain + [measure], plan.outputGrain, plan.outputGrain);
    forall arranged | Arranges(arranged, Executed(bundle, plan, scope, parameters, engine, db))
      ensures var rows, c := Delivered(plan.limit, arranged), r.plan.contract;
              WellShaped(c, rows) && KeysUnique(c.columns, c.uniqueKeys, rows)
    {
      DeliveredCheck(plan, EnvOf(bundle, plan, scope, parameters).names, engine, db, r.plan.contract, measure, arranged);
    }
  }
}
