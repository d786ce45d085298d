/**
  Fan-out safety: over data that honours the declared cardinalities, a join plan that the
  planner calls additive safe never repeats a base row, whichever way its edges are travelled.
*/
module FanOut {
  import opened Errors
  import opened Values
  import opened Expressions
  import opened Catalog
  import opened Plans
  import opened Relational
  import opened SqlQuery
  import opened PlanMeaning
  import opened Planner
  import opened Lowering

  // -- the rows of a join plan, joined along its relationships' predicates -------------------------

  predicate Lowered(j: PlannedJoin, join: Join) {
    && join.right.table == j.to && join.joinType == j.relationship.joinType
    && LowerJoinPredicates(j.relationship.predicates) == Ok(join.predicates)
  }

  predicate AllLowered(js: seq<PlannedJoin>, joins: seq<Join>) {
    |js| == |joins| && forall i :: 0 <= i < |js| ==> Lowered(js[i], joins[i])
  }

  lemma LoweredPredicateColumns(p: JoinPredicate)
    requires LowerJoinPredicate(p).Ok?
    ensures ColumnsIn(LowerJoinPredicate(p).value) == {p.left, p.right}
  {
    if p.op.LtOrNull? {
      var test := NullTest(false, Column(p.right));
      assert [test][1..] == [];
      assert ColumnsInAll([test]) == ColumnsIn(test) + ColumnsInAll([]);
    }
  }

  lemma {:induction false} LoweredColumns(ps: seq<JoinPredicate>)
    requires LowerJoinPredicates(ps).Ok?
    ensures ColumnsInAll(LowerJoinPredicates(ps).value) == JoinKeys(ps)
  {
    if ps != [] {
      LoweredColumns(ps[1..]);
      LoweredPredicateColumns(ps[0]);
    }
  }

  /** An approved join reads columns of its two tables only. */
  lemma JoinReadsItsTables(rel: Relationship)
    requires RelationshipWellFormed(rel) && LowerJoinPredicates(rel.predicates).Ok?
    ensures forall c :: c in ColumnsInAll(LowerJoinPredicates(rel.predicates).value) ==> c.table in {rel.leftTable, rel.rightTable}
  {
    LoweredColumns(rel.predicates);
    JoinKeysOf(rel.predicates);
  }

  // -- data that honours a relationship --------------------------------------------------------------

  /** Every row `l` of one table joins at most one row of the other. */
  ghost predicate AtMostOne(ps: seq<Predicate>, names: Names, from: TableId, to: TableId, ls: seq<Row>, rs: seq<Row>) {
    forall l :: l in ls ==> |Matching(Holds(ps, names), map[from := l], to, rs)| <= 1
  }

  /** The rows a table contributes; after a left join also the all-NULL row. */
  function Contributed(rows: seq<Row>, outer: bool): seq<Row> {
    if outer then rows + [map[]] else rows
  }

  /** What the declared cardinality promises about the data, in both directions of travel. */
  ghost predicate Honoured(rel: Relationship, names: Names, left: seq<Row>, right: seq<Row>, outer: bool)
    requires LowerJoinPredicates(rel.predicates).Ok?
  {
    var ps := LowerJoinPredicates(rel.predicates).value;
    && (rel.cardinality in {OneToOne, ManyToOne} ==>
          AtMostOne(ps, names, rel.leftTable, rel.rightTable, Contributed(left, outer), right))
    && (rel.cardinality in {OneToOne, OneToMany} ==>
          AtMostOne(ps, names, rel.rightTable, rel.leftTable, Contributed(right, outer), left))
  }

  /** A join the planner marks as preserving meets at most one row in the direction travelled. */
  lemma PreservingMeetsAtMostOne(rel: Relationship, reversed: bool, names: Names, left: seq<Row>, right: seq<Row>, outer: bool)
    requires LowerJoinPredicates(rel.predicates).Ok? && Honoured(rel, names, left, right, outer)
    requires Preserves(rel, reversed)
    ensures var ps := LowerJoinPredicates(rel.predicates).value;
            if reversed then AtMostOne(ps, names, rel.rightTable, rel.leftTable, Contributed(right, outer), left)
            else AtMostOne(ps, names, rel.leftTable, rel.rightTable, Contributed(left, outer), right)
  {
  }

  /** Only the two tables of a relationship decide how many rows it matches. */
  lemma {:induction false} MatchingReadsItsTables(ps: seq<Predicate>, names: Names, t: Tuple<TableId>, from: TableId, to: TableId, rs: seq<Row>)
    requires from != to && from in t && forall c :: c in ColumnsInAll(ps) ==> c.table in {from, to}
    ensures |Matching(Holds(ps, names), t, to, rs)| == |Matching(Holds(ps, names), map[from := t[from]], to, rs)|
  {
    if rs != [] {
      MatchingReadsItsTables(ps, names, t, from, to, rs[1..]);
      ListReadsOnlyItsColumns(ps, names, t[to := rs[0]], map[from := t[from]][to := rs[0]]);
    }
  }

  // -- joins distribute over rows ---------------------------------------------------------------------

  lemma {:induction false} JoinRowsConcat(joins: seq<Join>, names: Names, db: Database, a: seq<Tuple<TableId>>, b: seq<Tuple<TableId>>)
    ensures JoinRows(joins, names, db, a + b) == JoinRows(joins, names, db, a) + JoinRows(joins, names, db, b)
    decreases joins
  {
    if joins != [] {
      var j := joins[0];
      var on, rows, outer := Holds(j.predicates, names), RowsOf(db, j.right.physical), j.joinType.LeftOuter?;
      JoinAllConcat(on, a, b, j.right.table, rows, outer);
      JoinRowsConcat(joins[1..], names, db, JoinAll(on, a, j.right.table, rows, outer), JoinAll(on, b, j.right.table, rows, outer));
    }
  }

  lemma JoinRowsOfOne(joins: seq<Join>, names: Names, db: Database, t: Tuple<TableId>)
    requires joins != []
    ensures JoinRows(joins, names, db, [t]) == JoinRows(joins[1..], names, db,
              JoinOne(Holds(joins[0].predicates, names), t, joins[0].right.table, RowsOf(db, joins[0].right.physical),
                      joins[0].joinType.LeftOuter?))
  {
    var j := joins[0];
    var on, rows, outer := Holds(j.predicates, names), RowsOf(db, j.right.physical), j.joinType.LeftOuter?;
    assert [t][1..] == [];
    assert JoinAll(on, [t], j.right.table, rows, outer) == JoinOne(on, t, j.right.table, rows, outer);
  }

  lemma {:induction false} NoRowsJoinToNone(joins: seq<Join>, names: Names, db: Database)
    ensures JoinRows(joins, names, db, []) == []
    decreases joins
  {
    if joins != [] {
      NoRowsJoinToNone(joins[1..], names, db);
    }
  }

  // -- each base row at most once -----------------------------------------------------------------------

  predicate AnyOuter(joins: seq<Join>) {
    exists j :: j in joins && j.joinType.LeftOuter?
  }

  /** The physical rows of each scanned table. */
  type Contents = map<TableId, seq<Row>>

  predicate ScansContents(joins: seq<Join>, db: Database, data: Contents) {
    forall j :: j in joins ==> j.right.table in data && data[j.right.table] == RowsOf(db, j.right.physical)
  }

  /** Every table of the tuple contributes one of its own rows. */
  predicate FromContents(t: Tuple<TableId>, data: Contents, outer: bool) {
    forall table :: table in t ==> table in data && t[table] in Contributed(data[table], outer)
  }

  ghost predicate DataHonoured(js: seq<PlannedJoin>, names: Names, data: Contents, outer: bool) {
    forall j :: j in js ==>
      && LowerJoinPredicates(j.relationship.predicates).Ok? && RelationshipWellFormed(j.relationship)
      && j.relationship.leftTable in data && j.relationship.rightTable in data
      && Honoured(j.relationship, names, data[j.relationship.leftTable], data[j.relationship.rightTable], outer)
  }

  /** A join travels one of its relationship's edges from a given table to a new one. */
  predicate Travels(tables: set<TableId>, j: PlannedJoin) {
    && j.from in tables && j.to !in tables
    && (if j.reversed then j.relationship.rightTable == j.from && j.relationship.leftTable == j.to
        else j.relationship.leftTable == j.from && j.relationship.rightTable == j.to)
  }

  predicate TravelsAll(tables: set<TableId>, js: seq<PlannedJoin>)
    decreases |js|
  {
    js == [] || (Travels(tables, js[0]) && TravelsAll(tables + {js[0].to}, js[1..]))
  }

  predicate Preserving(j: PlannedJoin) {
    j.preserves && Preserves(j.relationship, j.reversed)
  }

  lemma SafeStepMeetsAtMostOne(j: PlannedJoin, join: Join, names: Names, data: Contents, outer: bool, t: Tuple<TableId>)
    requires Lowered(j, join) && DataHonoured([j], names, data, outer) && FromContents(t, data, outer)
    requires Travels(t.Keys, j) && Preserving(j)
    ensures |Matching(Holds(join.predicates, names), t, j.to, data[j.to])| <= 1
  {
    var rel := j.relationship;
    assert j in [j];
    PreservingMeetsAtMostOne(rel, j.reversed, names, data[rel.leftTable], data[rel.rightTable], outer);
    JoinReadsItsTables(rel);
    MatchingReadsItsTables(join.predicates, names, t, j.from, j.to, data[j.to]);
  }

  lemma {:induction false} MatchingContents<K(!new)>(on: Tuple<K> -> bool, t: Tuple<K>, key: K, rows: seq<Row>)
    ensures forall m :: m in Matching(on, t, key, rows) ==> on(m) && exists r :: r in rows && m == t[key := r]
  {
    if rows != [] {
      MatchingContents(on, t, key, rows[1..]);
      forall m | m in Matching(on, t, key, rows)
        ensures on(m) && exists r :: r in rows && m == t[key := r]
      {
        if m in Matching(on, t, key, rows[1..]) {
          var r :| r in rows[1..] && m == t[key := r];
          assert r in rows;
        } else {
          assert rows[0] in rows && m == t[key := rows[0]];
        }
      }
    }
  }

  /** A preserving join leads one tuple to at most one tuple, again made of contributed rows. */
  lemma SafeJoinOfOne(j: PlannedJoin, join: Join, names: Names, db: Database, data: Contents, outer: bool, t: Tuple<TableId>)
    requires Lowered(j, join) && ScansContents([join], db, data) && (join.joinType.LeftOuter? ==> outer)
    requires DataHonoured([j], names, data, outer) && FromContents(t, data, outer)
    requires Travels(t.Keys, j) && Preserving(j)
    ensures var next := JoinOne(Holds(join.predicates, names), t, j.to, RowsOf(db, join.right.physical), join.joinType.LeftOuter?);
            |next| <= 1 && forall u :: u in next ==> FromContents(u, data, outer) && u.Keys == t.Keys + {j.to}
  {
    assert join in [join];
    SafeStepMeetsAtMostOne(j, join, names, data, outer, t);
    MatchingContents(Holds(join.predicates, names), t, j.to, data[j.to]);
  }

  /** One base tuple yields at most one joined tuple. */
  lemma {:induction false} TupleAtMostOnce(js: seq<PlannedJoin>, joins: seq<Join>, names: Names, db: Database,
                                           data: Contents, outer: bool, t: Tuple<TableId>)
    requires AllLowered(js, joins) && ScansContents(joins, db, data) && (AnyOuter(joins) ==> outer)
    requires DataHonoured(js, names, data, outer) && FromContents(t, data, outer) && TravelsAll(t.Keys, js)
    requires forall j :: j in js ==> Preserving(j)
    ensures |JoinRows(joins, names, db, [t])| <= 1
    decreases |js|
  {
    hide Lowered, FromContents, Travels, Preserving, JoinOne;
    if js != [] {
      var j, join := js[0], joins[0];
      FirstAndRest(js, joins, names, db, data, outer);
      SafeJoinOfOne(j, join, names, db, data, outer, t);
      JoinRowsOfOne(joins, names, db, t);
      var next := JoinOne(Holds(join.predicates, names), t, join.right.table, RowsOf(db, join.right.physical), join.joinType.LeftOuter?);
      if next == [] {
        NoRowsJoinToNone(joins[1..], names, db);
      } else {
        assert next == [next[0]];
        TupleAtMostOnce(js[1..], joins[1..], names, db, data, outer, next[0]);
      }
    }
  }

  lemma FirstAndRest(js: seq<PlannedJoin>, joins: seq<Join>, names: Names, db: Database, data: Contents, outer: bool)
    requires js != [] && AllLowered(js, joins) && ScansContents(joins, db, data) && DataHonoured(js, names, data, outer)
    ensures Lowered(js[0], joins[0]) && ScansContents([joins[0]], db, data) && DataHonoured([js[0]], names, data, outer)
    ensures AllLowered(js[1..], joins[1..]) && ScansContents(joins[1..], db, data) && DataHonoured(js[1..], names, data, outer)
    ensures AnyOuter(joins[1..]) || joins[0].joinType.LeftOuter? ==> AnyOuter(joins)
    ensures js[0] in js && forall j :: j in js[1..] ==> j in js
    ensures joins[0].right.table == js[0].to
  {
    assert js[0] in js && joins[0] in joins;
    assert forall i :: 0 <= i < |js[1..]| ==> Lowered(js[1..][i], joins[1..][i]);
    assert forall k :: k in joins[1..] ==> k in joins;
  }

  // -- the planner's promise --------------------------------------------------------------------------------

  lemma {:induction false} TreeTravels(s: Search, done: seq<PlannedJoin>, js: seq<PlannedJoin>)
    requires Tree(s, done + js)
    ensures TravelsAll(Visited(s.base, done), js)
    decreases |js|
  {
    if js != [] {
      var all, longer := done + js, done + [js[0]];
      assert all[..|done|] == done && all[|done|] == js[0];
      assert Step(s, Visited(s.base, all[..|done|]), all[|done|]);
      VisitedGrows(s.base, done, js[0]);
      assert longer + js[1..] == all;
      TreeTravels(s, longer, js[1..]);
    }
  }

  lemma SafeTreePreserves(s: Search, plan: JoinPlan)
    requires Tree(s, plan.joins) && plan.IsAdditiveSafe()
    ensures forall j :: j in plan.joins ==> Preserving(j)
  {
    forall j | j in plan.joins
      ensures Preserving(j)
    {
      var i :| 0 <= i < |plan.joins| && plan.joins[i] == j;
      assert Step(s, Visited(s.base, plan.joins[..i]), plan.joins[i]);
    }
  }

  /**
    Every base row occurs at most once in the joined rows of an additive-safe plan, so the
    joined rows are no more than the base rows.
  */
  lemma AdditiveSafePlansDoNotFanOut(s: Search, plan: JoinPlan, joins: seq<Join>, names: Names, db: Database,
                                     data: Contents, base: seq<Row>)
    requires plan.base == s.base && Tree(s, plan.joins) && plan.IsAdditiveSafe()
    requires AllLowered(plan.joins, joins) && ScansContents(joins, db, data)
    requires s.base in data && data[s.base] == base && DataHonoured(plan.joins, names, data, AnyOuter(joins))
    ensures forall r :: r in base ==> |JoinRows(joins, names, db, [map[s.base := r]])| <= 1
    ensures |JoinRows(joins, names, db, ScanRows(s.base, base))| <= |base|
  {
    hide Preserving, Tree, AllLowered, ScansContents, DataHonoured, TravelsAll, JoinRows, AnyOuter;
    var js := plan.joins;
    assert [] + js == js;
    TreeTravels(s, [], js);
    SafeTreePreserves(s, plan);
    forall r | r in base
      ensures |JoinRows(joins, names, db, [map[s.base := r]])| <= 1
    {
      var t := map[s.base := r];
      assert t.Keys == Visited(s.base, []);
      TupleAtMostOnce(js, joins, names, db, data, AnyOuter(joins), t);
    }
    AtMostOnePerRow(s.base, joins, names, db, base);
  }

  lemma {:induction false} AtMostOnePerRow(table: TableId, joins: seq<Join>, names: Names, db: Database, rows: seq<Row>)
    requires forall r :: r in rows ==> |JoinRows(joins, names, db, [map[table := r]])| <= 1
    ensures |JoinRows(joins, names, db, ScanRows(table, rows))| <= |rows|
  {
    if rows == [] {
      NoRowsJoinToNone(joins, names, db);
    } else {
      AtMostOnePerRow(table, joins, names, db, rows[1..]);
      JoinRowsConcat(joins, names, db, [map[table := rows[0]]], ScanRows(table, rows[1..]));
      assert rows[0] in rows;
    }
  }
}
