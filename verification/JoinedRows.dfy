/**
  Inner joins, told without their order: the joined and filtered rows of a plan are exactly the
  combinations of one row of every scanned table that meet all ON conditions and WHERE.
*/
module JoinedRows {
  import opened Expressions
  import opened Plans
  import opened Relational
  import opened SqlQuery
  import opened PlanMeaning
  import opened Tenancy

  /** Each ON condition reads the joined table and tables scanned before it. */
  predicate ReadsEarlier(tables: set<TableId>, joins: seq<Join>)
    decreases |joins|
  {
    joins == []
    || (&& (forall c :: c in ColumnsInAll(joins[0].predicates) ==> c.table in tables + {joins[0].right.table})
        && ReadsEarlier(tables + {joins[0].right.table}, joins[1..]))
  }

  function Restrict(t: Tuple<TableId>, tables: set<TableId>): Tuple<TableId> {
    map k | k in t && k in tables :: t[k]
  }

  /** The tuple has a stored row of each joined table and meets each ON condition. */
  predicate Meets(joins: seq<Join>, names: Names, db: Database, t: Tuple<TableId>) {
    forall j :: j in joins ==>
      j.right.table in t && t[j.right.table] in RowsOf(db, j.right.physical) && Holds(j.predicates, names)(t)
  }

  function Joined(joins: seq<Join>): set<TableId> {
    set j | j in joins :: j.right.table
  }

  predicate Extends(on: Tuple<TableId> -> bool, x: Tuple<TableId>, table: TableId, rows: seq<Row>, y: Tuple<TableId>) {
    on(y) && exists row :: row in rows && y == x[table := row]
  }

  lemma {:induction false} InMatching(on: Tuple<TableId> -> bool, x: Tuple<TableId>, table: TableId, rows: seq<Row>, y: Tuple<TableId>)
    ensures y in Matching(on, x, table, rows) <==> Extends(on, x, table, rows, y)
  {
    if rows != [] {
      InMatching(on, x, table, rows[1..], y);
      assert rows[0] in rows && forall row :: row in rows[1..] ==> row in rows;
      assert forall row :: row in rows ==> row == rows[0] || row in rows[1..];
    }
  }

  lemma {:induction false} InJoinAll(on: Tuple<TableId> -> bool, ts: seq<Tuple<TableId>>, table: TableId, rows: seq<Row>, y: Tuple<TableId>)
    ensures y in JoinAll(on, ts, table, rows, false) <==> exists x :: x in ts && Extends(on, x, table, rows, y)
  {
    hide Matching, Extends;
    if ts != [] {
      InJoinAll(on, ts[1..], table, rows, y);
      InMatching(on, ts[0], table, rows, y);
      assert forall x :: x in ts <==> x == ts[0] || x in ts[1..];
    }
  }

  lemma {:induction false} OuterKeepsMatches(on: Tuple<TableId> -> bool, ts: seq<Tuple<TableId>>, table: TableId, rows: seq<Row>, outer: bool)
    ensures forall y :: y in JoinAll(on, ts, table, rows, false) ==> y in JoinAll(on, ts, table, rows, outer)
  {
    hide Matching;
    if ts != [] {
      OuterKeepsMatches(on, ts[1..], table, rows, outer);
    }
  }

  lemma ReadsThere(ps: seq<Predicate>, names: Names, t: Tuple<TableId>, tables: set<TableId>)
    requires forall c :: c in ColumnsInAll(ps) ==> c.table in tables
    ensures Holds(ps, names)(Restrict(t, tables)) <==> Holds(ps, names)(t)
  {
    ListReadsOnlyItsColumns(ps, names, Restrict(t, tables), t);
  }

  lemma RestrictGrows(t: Tuple<TableId>, tables: set<TableId>, table: TableId)
    requires table in t
    ensures Restrict(t, tables)[table := t[table]] == Restrict(t, tables + {table})
  {
  }

  /** A tuple that meets all joins is among the joined rows, for outer joins as well. */
  lemma {:induction false} MeetingIsJoined(joins: seq<Join>, names: Names, db: Database, ts: seq<Tuple<TableId>>, tables: set<TableId>, t: Tuple<TableId>)
    requires ReadsEarlier(tables, joins) && Restrict(t, tables) in ts && t.Keys == tables + Joined(joins) && Meets(joins, names, db, t)
    ensures t in JoinRows(joins, names, db, ts)
    decreases |joins|
  {
    hide Holds, JoinAll, Extends;
    if joins == [] {
      assert Restrict(t, tables) == t;
    } else {
      var j, later := joins[0], joins[1..];
      assert j in joins && forall k :: k in joins <==> k == j || k in later;
      var on, table, rows := Holds(j.predicates, names), j.right.table, RowsOf(db, j.right.physical);
      var x, y := Restrict(t, tables), Restrict(t, tables + {table});
      RestrictGrows(t, tables, table);
      ReadsThere(j.predicates, names, t, tables + {table});
      assert Extends(on, x, table, rows, y) by { Extended(on, x, table, rows, t[table]); }
      InJoinAll(on, ts, table, rows, y);
      OuterKeepsMatches(on, ts, table, rows, j.joinType.LeftOuter?);
      assert t.Keys == (tables + {table}) + Joined(later);
      MeetingIsJoined(later, names, db, JoinAll(on, ts, table, rows, j.joinType.LeftOuter?), tables + {table}, t);
    }
  }

  lemma Extended(on: Tuple<TableId> -> bool, x: Tuple<TableId>, table: TableId, rows: seq<Row>, row: Row)
    requires row in rows && on(x[table := row])
    ensures Extends(on, x, table, rows, x[table := row])
  {
  }

  lemma Extension(on: Tuple<TableId> -> bool, x: Tuple<TableId>, table: TableId, rows: seq<Row>, y: Tuple<TableId>)
    requires table !in x && Extends(on, x, table, rows, y)
    ensures on(y) && table in y && y[table] in rows && x == Restrict(y, x.Keys) && y.Keys == x.Keys + {table}
  {
    assert forall k :: k in x.Keys ==> k != table;
  }

  lemma RestrictToAll(t: Tuple<TableId>, tables: set<TableId>)
    ensures t.Keys == tables ==> Restrict(t, tables) == t
  {
  }

  lemma RestrictAgain(t: Tuple<TableId>, tables: set<TableId>, table: TableId)
    ensures var y := Restrict(t, tables + {table});
            && Restrict(y, tables) == Restrict(t, tables) && (table in y <==> table in t) && (table in t ==> y[table] == t[table])
  {
  }

  lemma NothingJoined(names: Names, db: Database, t: Tuple<TableId>)
    ensures Joined([]) == {} && Meets([], names, db, t)
  {
  }

  lemma SpanningKeys(ts: seq<Tuple<TableId>>, tables: set<TableId>, x: Tuple<TableId>)
    requires Spanning(ts, tables) && x in ts
    ensures x.Keys == tables
  {
  }

  lemma MeetsStep(joins: seq<Join>, names: Names, db: Database, t: Tuple<TableId>)
    requires joins != []
    ensures Joined(joins) == {joins[0].right.table} + Joined(joins[1..])
    ensures Meets(joins, names, db, t) <==>
              && joins[0].right.table in t && t[joins[0].right.table] in RowsOf(db, joins[0].right.physical)
              && Holds(joins[0].predicates, names)(t) && Meets(joins[1..], names, db, t)
  {
    hide Holds;
    assert joins[0] in joins && forall k :: k in joins <==> k == joins[0] || k in joins[1..];
  }

  /** With inner joins there is no other row. */
  lemma {:induction false} JoinedMeets(joins: seq<Join>, names: Names, db: Database, ts: seq<Tuple<TableId>>, tables: set<TableId>, t: Tuple<TableId>)
    requires NewTables(tables, joins) && ReadsEarlier(tables, joins) && Spanning(ts, tables)
    requires (forall j :: j in joins ==> j.joinType.Inner?) && t in JoinRows(joins, names, db, ts)
    ensures t.Keys == tables + Joined(joins) && Restrict(t, tables) in ts && Meets(joins, names, db, t)
    decreases |joins|
  {
    hide Holds, JoinAll, Extends, Meets, Joined, Restrict, Spanning;
    if joins == [] {
      SpanningKeys(ts, tables, t);
      RestrictToAll(t, tables);
      NothingJoined(names, db, t);
    } else {
      var j, later := joins[0], joins[1..];
      assert j in joins && forall k :: k in later ==> k in joins;
      var on, table, rows := Holds(j.predicates, names), j.right.table, RowsOf(db, j.right.physical);
      JoinAllSpans(on, ts, tables, table, rows, false);
      JoinedMeets(later, names, db, JoinAll(on, ts, table, rows, false), tables + {table}, t);
      var y := Restrict(t, tables + {table});
      InJoinAll(on, ts, table, rows, y);
      var x :| x in ts && Extends(on, x, table, rows, y);
      SpanningKeys(ts, tables, x);
      Extension(on, x, table, rows, y);
      RestrictAgain(t, tables, table);
      ReadsThere(j.predicates, names, t, tables + {table});
      MeetsStep(joins, names, db, t);
    }
  }

  // -- a plan's rows -----------------------------------------------------------------------------------

  /** One stored row of every scanned table, meeting all ON conditions and WHERE. */
  predicate Combination(plan: LogicalPlan, names: Names, db: Database, t: Tuple<TableId>) {
    && t.Keys == {plan.base.table} + Joined(plan.joins)
    && plan.base.table in t && t[plan.base.table] in RowsOf(db, plan.base.physical)
    && Meets(plan.joins, names, db, t) && Holds(plan.where, names)(t)
  }

  lemma ScannedOnce(table: TableId, rows: seq<Row>, row: Row)
    ensures map[table := row] in ScanRows(table, rows) <==> row in rows
  {
    var ts := ScanRows(table, rows);
    if i :| 0 <= i < |ts| && ts[i] == map[table := row] {
      assert ts[i][table] == rows[i] == row;
    }
    if i :| 0 <= i < |rows| && rows[i] == row {
      assert ts[i] == map[table := row];
    }
  }

  lemma ScannedBase(table: TableId, rows: seq<Row>, t: Tuple<TableId>)
    requires table in t
    ensures Restrict(t, {table}) in ScanRows(table, rows) <==> t[table] in rows
  {
    assert Restrict(t, {table}) == map[table := t[table]];
    ScannedOnce(table, rows, t[table]);
  }

  lemma CombinationsAreRows(plan: LogicalPlan, names: Names, db: Database, t: Tuple<TableId>)
    requires ReadsEarlier({plan.base.table}, plan.joins) && Combination(plan, names, db, t)
    ensures t in SourceRows(plan, names, db)
  {
    hide Holds, JoinRows, Restrict, Meets;
    ScannedBase(plan.base.table, RowsOf(db, plan.base.physical), t);
    MeetingIsJoined(plan.joins, names, db, ScanRows(plan.base.table, RowsOf(db, plan.base.physical)), {plan.base.table}, t);
  }

  /** The joined and filtered rows of inner joins are exactly the combinations. */
  lemma RowsAreCombinations(plan: LogicalPlan, names: Names, db: Database, t: Tuple<TableId>)
    requires ReadsEarlier({plan.base.table}, plan.joins) && NewTables({plan.base.table}, plan.joins)
    requires forall j :: j in plan.joins ==> j.joinType.Inner?
    ensures t in SourceRows(plan, names, db) <==> Combination(plan, names, db, t)
  {
    hide Holds, JoinRows, Restrict, Meets, ReadsEarlier;
    if Combination(plan, names, db, t) {
      CombinationsAreRows(plan, names, db, t);
    }
    var base, rows := plan.base.table, RowsOf(db, plan.base.physical);
    if t in SourceRows(plan, names, db) {
      JoinedMeets(plan.joins, names, db, ScanRows(base, rows), {base}, t);
      ScannedBase(base, rows, t);
    }
  }
}
