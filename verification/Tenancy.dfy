/**
  Tenant non-interference: a plan whose WHERE isolates every tenant-scoped scan gives one
  tenant the same rows over any two databases that agree on that tenant's rows.
*/
module Tenancy {
  import opened Errors
  import opened Values
  import opened Expressions
  import opened Catalog
  import opened Plans
  import opened Planner
  import opened Relational
  import opened SqlQuery
  import opened PlanMeaning
  import opened Lowering

  /** The tenant key of each tenant-scoped table. */
  type TenantKeys = map<TableId, ColumnId>

  predicate OwnRow(row: Row, name: string, tenant: Value) {
    tenant != Null && name in row && row[name] == tenant
  }

  function OwnRows(name: string, tenant: Value): Row -> bool {
    row => OwnRow(row, name, tenant)
  }

  /** Every tenant-scoped table of the tuple contributes a row of the tenant. */
  function Own(keys: TenantKeys, tenant: Value): Tuple<TableId> -> bool {
    t => forall table :: table in t && table in keys ==> OwnRow(t[table], keys[table].name, tenant)
  }

  /** The rows of a table that the tenant may see. */
  function Visible(keys: TenantKeys, tenant: Value, table: TableId, rows: seq<Row>): seq<Row> {
    if table in keys then Filter(rows, OwnRows(keys[table].name, tenant)) else rows
  }

  // -- one join ---------------------------------------------------------------------------------------

  lemma OwnExtends(keys: TenantKeys, tenant: Value, t: Tuple<TableId>, table: TableId, row: Row)
    requires table !in t
    ensures Own(keys, tenant)(t[table := row]) <==>
              Own(keys, tenant)(t) && (table in keys ==> OwnRow(row, keys[table].name, tenant))
  {
    var u := t[table := row];
    if Own(keys, tenant)(u) {
      forall other | other in t && other in keys
        ensures OwnRow(t[other], keys[other].name, tenant)
      {
        assert other in u && u[other] == t[other];
      }
    }
  }

  lemma {:induction false} ForeignTupleMatchesNothing(keys: TenantKeys, tenant: Value, on: Tuple<TableId> -> bool,
                                                      t: Tuple<TableId>, table: TableId, rows: seq<Row>)
    requires table !in t && !Own(keys, tenant)(t)
    ensures Filter(Matching(on, t, table, rows), Own(keys, tenant)) == []
  {
    if rows != [] {
      ForeignTupleMatchesNothing(keys, tenant, on, t, table, rows[1..]);
      OwnExtends(keys, tenant, t, table, rows[0]);
      FilterConcat(if on(t[table := rows[0]]) then [t[table := rows[0]]] else [], Matching(on, t, table, rows[1..]),
                   Own(keys, tenant));
    }
  }

  lemma VisibleOfNone(keys: TenantKeys, tenant: Value, table: TableId)
    ensures Visible(keys, tenant, table, []) == []
  {
  }

  lemma VisibleStep(keys: TenantKeys, tenant: Value, table: TableId, rows: seq<Row>)
    requires rows != []
    ensures Visible(keys, tenant, table, rows)
         == (if table in keys ==> OwnRow(rows[0], keys[table].name, tenant) then [rows[0]] else [])
              + Visible(keys, tenant, table, rows[1..])
  {
  }

  lemma MatchingStep<K>(on: Tuple<K> -> bool, t: Tuple<K>, key: K, row: Row, rows: seq<Row>)
    ensures Matching(on, t, key, [row] + rows)
         == (if on(t[key := row]) then [t[key := row]] else []) + Matching(on, t, key, rows)
  {
    assert ([row] + rows)[1..] == rows;
  }

  lemma {:induction false} OwnTupleMatches(keys: TenantKeys, tenant: Value, on: Tuple<TableId> -> bool,
                                           t: Tuple<TableId>, table: TableId, rows: seq<Row>)
    requires table !in t && Own(keys, tenant)(t)
    ensures Filter(Matching(on, t, table, rows), Own(keys, tenant))
         == Matching(on, t, table, Visible(keys, tenant, table, rows))
  {
    hide Own, Visible;
    VisibleOfNone(keys, tenant, table);
    if rows != [] {
      OwnTupleMatches(keys, tenant, on, t, table, rows[1..]);
      OwnExtends(keys, tenant, t, table, rows[0]);
      FilterConcat(if on(t[table := rows[0]]) then [t[table := rows[0]]] else [], Matching(on, t, table, rows[1..]),
                   Own(keys, tenant));
      VisibleStep(keys, tenant, table, rows);
      var visible := Visible(keys, tenant, table, rows[1..]);
      MatchingStep(on, t, table, rows[0], visible);
      assert [] + visible == visible;
    }
  }

  /** What one tuple contributes to the tenant's part of a join. */
  function OwnJoin(keys: TenantKeys, tenant: Value, on: Tuple<TableId> -> bool, t: Tuple<TableId>, table: TableId,
                   rows: seq<Row>, outer: bool): seq<Tuple<TableId>> {
    if !Own(keys, tenant)(t) then []
    else JoinOne(on, t, table, Visible(keys, tenant, table, rows), outer && table !in keys)
  }

  /** An outer join's NULL row never belongs to the tenant, so it drops out with the foreign rows. */
  lemma OwnPartOfJoin(keys: TenantKeys, tenant: Value, on: Tuple<TableId> -> bool, t: Tuple<TableId>, table: TableId,
                      rows: seq<Row>, outer: bool)
    requires table !in t
    ensures Filter(JoinOne(on, t, table, rows, outer), Own(keys, tenant)) == OwnJoin(keys, tenant, on, t, table, rows, outer)
  {
    OwnExtends(keys, tenant, t, table, map[]);
    if Own(keys, tenant)(t) {
      OwnTupleMatches(keys, tenant, on, t, table, rows);
    } else {
      ForeignTupleMatchesNothing(keys, tenant, on, t, table, rows);
    }
  }

  // -- a chain of joins ------------------------------------------------------------------------------------

  predicate Spanning(ts: seq<Tuple<TableId>>, tables: set<TableId>) {
    forall t :: t in ts ==> t.Keys == tables
  }

  /** The tenant's part of a join depends on the tenant's part of its inputs. */
  lemma {:induction false} OwnPartOfJoinAll(keys: TenantKeys, tenant: Value, on: Tuple<TableId> -> bool,
                                            ts: seq<Tuple<TableId>>, tables: set<TableId>, table: TableId,
                                            rows: seq<Row>, outer: bool)
    requires Spanning(ts, tables) && table !in tables
    ensures Filter(JoinAll(on, ts, table, rows, outer), Own(keys, tenant))
         == JoinAll(on, Filter(ts, Own(keys, tenant)), table, Visible(keys, tenant, table, rows), outer && table !in keys)
  {
    hide Own, JoinOne, Matching, Visible;
    if ts != [] {
      assert ts[0] in ts && forall t :: t in ts[1..] ==> t in ts;
      var own, seen := Own(keys, tenant), Visible(keys, tenant, table, rows);
      OwnPartOfJoinAll(keys, tenant, on, ts[1..], tables, table, rows, outer);
      OwnPartOfJoin(keys, tenant, on, ts[0], table, rows, outer);
      FilterConcat(JoinOne(on, ts[0], table, rows, outer), JoinAll(on, ts[1..], table, rows, outer), own);
      JoinAllStep(on, own(ts[0]), ts[0], Filter(ts[1..], own), table, seen, outer && table !in keys);
    }
  }

  lemma JoinAllStep<K>(on: Tuple<K> -> bool, kept: bool, t: Tuple<K>, ts: seq<Tuple<K>>, key: K, rows: seq<Row>, outer: bool)
    ensures JoinAll(on, (if kept then [t] else []) + ts, key, rows, outer)
         == (if kept then JoinOne(on, t, key, rows, outer) else []) + JoinAll(on, ts, key, rows, outer)
  {
    assert ([t] + ts)[1..] == ts;
    assert [] + ts == ts;
  }

  lemma {:induction false} MatchingSpans(on: Tuple<TableId> -> bool, t: Tuple<TableId>, table: TableId, rows: seq<Row>)
    ensures Spanning(Matching(on, t, table, rows), t.Keys + {table})
  {
    if rows != [] {
      MatchingSpans(on, t, table, rows[1..]);
    }
  }

  lemma {:induction false} JoinAllSpans(on: Tuple<TableId> -> bool, ts: seq<Tuple<TableId>>, tables: set<TableId>,
                                        table: TableId, rows: seq<Row>, outer: bool)
    requires Spanning(ts, tables)
    ensures Spanning(JoinAll(on, ts, table, rows, outer), tables + {table})
  {
    if ts != [] {
      assert ts[0] in ts && forall t :: t in ts[1..] ==> t in ts;
      JoinAllSpans(on, ts[1..], tables, table, rows, outer);
      MatchingSpans(on, ts[0], table, rows);
    }
  }

  /** The joins scan new tables, each once. */
  predicate NewTables(tables: set<TableId>, joins: seq<Join>)
    decreases |joins|
  {
    joins == [] || (joins[0].right.table !in tables && NewTables(tables + {joins[0].right.table}, joins[1..]))
  }

  /** Two databases agree on everything the tenant may see of a scanned table. */
  predicate AgreeOn(keys: TenantKeys, tenant: Value, scan: Scan, db: Database, other: Database) {
    Visible(keys, tenant, scan.table, RowsOf(db, scan.physical)) == Visible(keys, tenant, scan.table, RowsOf(other, scan.physical))
  }

  lemma {:induction false} OwnPartOfChain(keys: TenantKeys, tenant: Value, joins: seq<Join>, names: Names, db: Database,
                                          other: Database, ts: seq<Tuple<TableId>>, us: seq<Tuple<TableId>>, tables: set<TableId>)
    requires NewTables(tables, joins) && Spanning(ts, tables) && Spanning(us, tables)
    requires forall j :: j in joins ==> AgreeOn(keys, tenant, j.right, db, other)
    requires Filter(ts, Own(keys, tenant)) == Filter(us, Own(keys, tenant))
    ensures Filter(JoinRows(joins, names, db, ts), Own(keys, tenant)) == Filter(JoinRows(joins, names, other, us), Own(keys, tenant))
    decreases |joins|
  {
    if joins != [] {
      var j := joins[0];
      assert j in joins && forall k :: k in joins[1..] ==> k in joins;
      var on, table, outer := Holds(j.predicates, names), j.right.table, j.joinType.LeftOuter?;
      var rows, rows' := RowsOf(db, j.right.physical), RowsOf(other, j.right.physical);
      OwnPartOfJoinAll(keys, tenant, on, ts, tables, table, rows, outer);
      OwnPartOfJoinAll(keys, tenant, on, us, tables, table, rows', outer);
      JoinAllSpans(on, ts, tables, table, rows, outer);
      JoinAllSpans(on, us, tables, table, rows', outer);
      OwnPartOfChain(keys, tenant, joins[1..], names, db, other, JoinAll(on, ts, table, rows, outer),
                     JoinAll(on, us, table, rows', outer), tables + {table});
    }
  }

  lemma {:induction false} OwnPartOfScan(keys: TenantKeys, tenant: Value, table: TableId, rows: seq<Row>)
    ensures Filter(ScanRows(table, rows), Own(keys, tenant)) == ScanRows(table, Visible(keys, tenant, table, rows))
  {
    if rows != [] {
      OwnPartOfScan(keys, tenant, table, rows[1..]);
      OwnExtends(keys, tenant, map[], table, rows[0]);
      assert map[][table := rows[0]] == map[table := rows[0]];
    }
  }

  // -- the whole plan -----------------------------------------------------------------------------------------

  /** WHERE compares the key of every tenant-scoped scan with the tenant parameter. */
  predicate Isolated(keys: TenantKeys, plan: LogicalPlan) {
    forall scan :: scan in Scans(plan) && scan.table in keys ==>
      keys[scan.table].table == scan.table && TenantCondition(keys[scan.table]) in plan.where
  }

  lemma {:induction false} ConjunctHolds(ps: seq<Predicate>, p: Predicate, names: Names, t: Tuple<TableId>)
    requires p in ps && DenoteAll(ps, names, t) == Yes
    ensures Denote(p, names, t) == Yes
  {
    if p != ps[0] {
      ConjunctHolds(ps[1..], p, names, t);
    }
  }

  lemma WhereImpliesOwn(keys: TenantKeys, plan: LogicalPlan, names: Names, tenant: Value, t: Tuple<TableId>)
    requires Isolated(keys, plan) && "p_tenant" in names.supplied && names.supplied["p_tenant"] == tenant
    requires forall table :: table in t ==> exists scan :: scan in Scans(plan) && scan.table == table
    requires Holds(plan.where, names)(t)
    ensures Own(keys, tenant)(t)
  {
    hide Holds, DenoteAll, TenantCondition;
    forall table | table in t && table in keys
      ensures OwnRow(t[table], keys[table].name, tenant)
    {
      var scan :| scan in Scans(plan) && scan.table == table;
      assert TenantCondition(keys[table]) in plan.where;
      HoldsAll(plan.where, names, t);
      ConjunctHolds(plan.where, TenantCondition(keys[table]), names, t);
      ConditionMeansOwn(keys[table], names, tenant, t);
    }
  }

  lemma HoldsAll(ps: seq<Predicate>, names: Names, t: Tuple<TableId>)
    ensures Holds(ps, names)(t) <==> DenoteAll(ps, names, t) == Yes
  {
  }

  lemma ConditionMeansOwn(key: ColumnId, names: Names, tenant: Value, t: Tuple<TableId>)
    requires "p_tenant" in names.supplied && names.supplied["p_tenant"] == tenant && key.table in t
    ensures Denote(TenantCondition(key), names, t) == Yes <==> OwnRow(t[key.table], key.name, tenant)
  {
  }

  lemma {:induction false} ChainSpans(joins: seq<Join>, names: Names, db: Database, ts: seq<Tuple<TableId>>, tables: set<TableId>)
    requires Spanning(ts, tables)
    ensures Spanning(JoinRows(joins, names, db, ts), tables + set j | j in joins :: j.right.table)
    decreases |joins|
  {
    if joins != [] {
      var j := joins[0];
      var on, rows, outer := Holds(j.predicates, names), RowsOf(db, j.right.physical), j.joinType.LeftOuter?;
      JoinAllSpans(on, ts, tables, j.right.table, rows, outer);
      ChainSpans(joins[1..], names, db, JoinAll(on, ts, j.right.table, rows, outer), tables + {j.right.table});
      assert (set k | k in joins :: k.right.table) == {j.right.table} + set k | k in joins[1..] :: k.right.table;
    }
  }

  lemma SourceIsOwn(keys: TenantKeys, plan: LogicalPlan, names: Names, tenant: Value, db: Database)
    requires Isolated(keys, plan) && "p_tenant" in names.supplied && names.supplied["p_tenant"] == tenant
    ensures var rows := JoinRows(plan.joins, names, db, ScanRows(plan.base.table, RowsOf(db, plan.base.physical)));
            SourceRows(plan, names, db) == Filter(Filter(rows, Own(keys, tenant)), Holds(plan.where, names))
  {
    var start := ScanRows(plan.base.table, RowsOf(db, plan.base.physical));
    var rows := JoinRows(plan.joins, names, db, start);
    ChainSpans(plan.joins, names, db, start, {plan.base.table});
    forall t | t in rows && Holds(plan.where, names)(t)
      ensures Own(keys, tenant)(t)
    {
      forall table | table in t
        ensures exists scan :: scan in Scans(plan) && scan.table == table
      {
        assert plan.base in Scans(plan) by { assert Scans(plan)[0] == plan.base; }
        if table != plan.base.table {
          var j :| j in plan.joins && j.right.table == table;
          var i :| 0 <= i < |plan.joins| && plan.joins[i] == j;
          assert Scans(plan)[i + 1] == j.right;
        }
      }
      WhereImpliesOwn(keys, plan, names, tenant, t);
    }
    FilterAbsorbs(rows, Own(keys, tenant), Holds(plan.where, names));
  }

  lemma {:induction false} DistinctAreNew(done: seq<Scan>, joins: seq<Join>, tables: set<TableId>)
    requires DistinctScans(done + JoinedScans(joins)) && tables == set s | s in done :: s.table
    ensures NewTables(tables, joins)
    decreases |joins|
  {
    if joins != [] {
      var all, s := done + JoinedScans(joins), joins[0].right;
      assert all[|done|] == s;
      forall d | d in done
        ensures d.table != s.table
      {
        var i :| 0 <= i < |done| && done[i] == d;
        assert all[i] == d;
      }
      assert (done + [s]) + JoinedScans(joins[1..]) == all;
      DistinctAreNew(done + [s], joins[1..], tables + {s.table});
    }
  }

  /**
    Two databases that show the tenant the same rows give it the same answer, whatever other
    tenants' rows they hold, for inner and left joins alike.
  */
  lemma TenantsDoNotInterfere(keys: TenantKeys, plan: LogicalPlan, names: Names, tenant: Value, engine: Engine,
                              db: Database, other: Database)
    requires DistinctScans(Scans(plan)) && Isolated(keys, plan)
    requires "p_tenant" in names.supplied && names.supplied["p_tenant"] == tenant
    requires forall scan :: scan in Scans(plan) ==> AgreeOn(keys, tenant, scan, db, other)
    ensures PlanRows(plan, names, engine, db) == PlanRows(plan, names, engine, other)
    ensures ServedRows(plan, names, engine, db) == ServedRows(plan, names, engine, other)
  {
    hide PlanKey, GroupRows, ServedGroups, SourceRows, FirstSeen, Isolated, AgreeOn, DistinctScans;
    SourcesAgree(keys, plan, names, tenant, db, other);
  }

  /** The filtered rows agree as sequences, before any grouping. */
  lemma SourcesAgree(keys: TenantKeys, plan: LogicalPlan, names: Names, tenant: Value, db: Database, other: Database)
    requires DistinctScans(Scans(plan)) && Isolated(keys, plan)
    requires "p_tenant" in names.supplied && names.supplied["p_tenant"] == tenant
    requires forall scan :: scan in Scans(plan) ==> AgreeOn(keys, tenant, scan, db, other)
    ensures SourceRows(plan, names, db) == SourceRows(plan, names, other)
  {
    hide SourceRows, Isolated, DistinctScans, JoinRows, Visible, Own, Holds, NewTables;
    var base := plan.base;
    var ts, us := ScanRows(base.table, RowsOf(db, base.physical)), ScanRows(base.table, RowsOf(other, base.physical));
    SourceIsOwn(keys, plan, names, tenant, db);
    SourceIsOwn(keys, plan, names, tenant, other);
    OwnPartOfScan(keys, tenant, base.table, RowsOf(db, base.physical));
    OwnPartOfScan(keys, tenant, base.table, RowsOf(other, base.physical));
    assert Scans(plan)[0] == base;
    assert base in Scans(plan);
    forall j | j in plan.joins
      ensures AgreeOn(keys, tenant, j.right, db, other)
    {
      var i :| 0 <= i < |plan.joins| && plan.joins[i] == j;
      assert Scans(plan)[i + 1] == j.right;
    }
    DistinctAreNew([base], plan.joins, {base.table});
    OwnPartOfChain(keys, tenant, plan.joins, names, db, other, ts, us, {base.table});
  }
}
