/**
  Storage order does not matter: permuting the rows of the tables permutes the rows of the answer,
  and so tenants stay apart however the two databases list the rows a tenant may see.
*/
module StorageOrder {
  import opened Values
  import opened Expressions
  import opened Catalog
  import opened Ordering
  import opened Plans
  import opened Planner
  import opened Relational
  import opened SQ = SqlQuery
  import opened PlanMeaning
  import opened RatioMeaning
  import opened Emissions
  import opened Lowering
  import opened Tenancy
  import opened Binder
  import opened Scoping
  import opened EndToEnd
  import opened ResultKeys
  import opened KeyCollisions
  import opened Bags

  // -- groups -----------------------------------------------------------------------------------------

  function HasKey<T>(keyOf: T -> Key, k: Key): T -> bool {
    t => keyOf(t) == k
  }

  lemma {:induction false} MembersAreFilter<T(!new)>(ts: seq<T>, keyOf: T -> Key, k: Key)
    ensures Members(ts, KeysOf(ts, keyOf), k) == Filter(ts, HasKey(keyOf, k))
  {
    if ts != [] {
      MembersAreFilter(ts[1..], keyOf, k);
      assert KeysOf(ts, keyOf)[1..] == KeysOf(ts[1..], keyOf);
    }
  }

  lemma {:induction false} EachOnce<T>(xs: seq<T>)
    requires NoDuplicates(xs)
    ensures multiset(xs) == multiset(set x | x in xs)
  {
    if xs != [] {
      var rest := xs[1..];
      assert forall i :: 0 <= i < |rest| ==> rest[i] == xs[i + 1];
      EachOnce(rest);
      assert xs == [xs[0]] + rest;
      assert xs[0] !in rest;
      var others := set x | x in rest;
      assert (set x | x in xs) == {xs[0]} + others;
      OneMore(others, xs[0]);
    }
  }

  lemma OneMore<T>(xs: set<T>, x: T)
    requires x !in xs
    ensures multiset({x} + xs) == multiset{x} + multiset(xs)
  {
  }

  /** The distinct keys of permuted rows are permuted. */
  lemma KeysPermute<T>(ts: seq<T>, us: seq<T>, keyOf: T -> Key)
    requires Same(ts, us)
    ensures Same(FirstSeen(KeysOf(ts, keyOf)), FirstSeen(KeysOf(us, keyOf)))
  {
    SameElements(ts, us);
    var ks, ls := KeysOf(ts, keyOf), KeysOf(us, keyOf);
    forall k
      ensures k in ks <==> k in ls
    {
      if i :| 0 <= i < |ks| && ks[i] == k {
        assert ts[i] in ts && ts[i] in us;
        var j :| 0 <= j < |us| && us[j] == ts[i];
        assert ls[j] == k;
      }
      if i :| 0 <= i < |ls| && ls[i] == k {
        assert us[i] in us && us[i] in ts;
        var j :| 0 <= j < |ts| && ts[j] == us[i];
        assert ks[j] == k;
      }
    }
    EachOnce(FirstSeen(ks));
    EachOnce(FirstSeen(ls));
    assert (set k | k in FirstSeen(ks)) == set k | k in FirstSeen(ls);
  }

  /** What one group contributes to the served rows. */
  ghost function GroupPart(plan: LogicalPlan, names: Names, engine: SQ.Engine, ts: seq<Tuple<TableId>>, ks: seq<Key>): Key -> multiset<seq<Value>>
    requires |ts| == |ks|
  {
    k =>
      if KeptGroup(plan, names, ts, ks, k)
      then multiset{k + ServedValues(plan.measures, engine, GroupMembers(Grouped(plan), ts, ks, k))} else multiset{}
  }

  lemma {:induction false} GroupsSpread(plan: LogicalPlan, names: Names, engine: SQ.Engine, ts: seq<Tuple<TableId>>, ks: seq<Key>, groups: seq<Key>)
    requires |ts| == |ks|
    ensures multiset(ServedGroups(plan, names, engine, ts, ks, groups)) == Spread(groups, GroupPart(plan, names, engine, ts, ks))
  {
    hide KeptGroup, GroupMembers, ServedValues;
    if groups != [] {
      GroupsSpread(plan, names, engine, ts, ks, groups[1..]);
      GroupStep(plan, names, engine, ts, ks, groups);
    }
  }

  lemma {:induction false} ValuesPermute(ms: seq<(string, Measure)>, engine: SQ.Engine, ts: seq<Tuple<TableId>>, us: seq<Tuple<TableId>>)
    requires Same(ts, us)
    ensures ServedValues(ms, engine, ts) == ServedValues(ms, engine, us)
  {
    hide Served, LeftGrouped;
    if ms != [] {
      ValuesPermute(ms[1..], engine, ts, us);
      MeasurePermutes(LeftGrouped(ms[0].1), engine, ts, us);
    }
  }

  lemma MembersPermute(plan: LogicalPlan, engine: SQ.Engine, ts: seq<Tuple<TableId>>, us: seq<Tuple<TableId>>, k: Key)
    requires Same(ts, us)
    ensures var keyOf := PlanKey(plan, engine);
            var x, y := GroupMembers(Grouped(plan), ts, KeysOf(ts, keyOf), k), GroupMembers(Grouped(plan), us, KeysOf(us, keyOf), k);
            Same(x, y) && (Grouped(plan) ==> forall t :: t in x || t in y ==> keyOf(t) == k)
  {
    hide PlanKey, Grouped, Members;
    var keyOf := PlanKey(plan, engine);
    MembersAreFilter(ts, keyOf, k);
    MembersAreFilter(us, keyOf, k);
    FilterPermutes(ts, us, HasKey(keyOf, k));
  }

  /** HAVING over grouping columns judges permuted members of one group alike. */
  lemma HavingPermutes(plan: LogicalPlan, names: Names, engine: SQ.Engine, x: seq<Tuple<TableId>>, y: seq<Tuple<TableId>>, k: Key)
    requires BucketFirst(plan) && HavingGrouped(plan) && Same(x, y)
    requires Grouped(plan) ==> forall t :: t in x || t in y ==> PlanKey(plan, engine)(t) == k
    ensures Holds(plan.having, names)(Representative(x)) <==> Holds(plan.having, names)(Representative(y))
  {
    hide Holds, PlanKey, BucketFirst, HavingGrouped, Grouped;
    SameElements(x, y);
    if x != [] {
      assert y != [] && x[0] in x && y[0] in y;
      AllOneKey(plan, engine, x[0], y[0]);
      HavingOfGroup(plan, names, engine, x[0], y[0]);
    }
  }

  /** A group contributes the same row to permuted rows. */
  lemma GroupPermutes(plan: LogicalPlan, names: Names, engine: SQ.Engine, ts: seq<Tuple<TableId>>, us: seq<Tuple<TableId>>, k: Key)
    requires BucketFirst(plan) && HavingGrouped(plan) && Same(ts, us)
    ensures GroupPart(plan, names, engine, ts, KeysOf(ts, PlanKey(plan, engine)))(k)
         == GroupPart(plan, names, engine, us, KeysOf(us, PlanKey(plan, engine)))(k)
  {
    hide Holds, ServedValues, GroupMembers, PlanKey, BucketFirst, HavingGrouped, Grouped, Same, Representative;
    var keyOf := PlanKey(plan, engine);
    var x, y := GroupMembers(Grouped(plan), ts, KeysOf(ts, keyOf), k), GroupMembers(Grouped(plan), us, KeysOf(us, keyOf), k);
    MembersPermute(plan, engine, ts, us, k);
    ValuesPermute(plan.measures, engine, x, y);
    HavingPermutes(plan, names, engine, x, y, k);
  }

  lemma AllOneKey(plan: LogicalPlan, engine: SQ.Engine, t: Tuple<TableId>, u: Tuple<TableId>)
    requires BucketFirst(plan)
    ensures !Grouped(plan) ==> PlanKey(plan, engine)(t) == PlanKey(plan, engine)(u)
  {
    KeyValues(plan, engine, t);
    KeyValues(plan, engine, u);
  }

  /** Permuted rows are served as permuted rows. */
  lemma ServedPermute(plan: LogicalPlan, names: Names, engine: SQ.Engine, db: Database, other: Database)
    requires BucketFirst(plan) && HavingGrouped(plan) && Same(SourceRows(plan, names, db), SourceRows(plan, names, other))
    ensures Same(ServedRows(plan, names, engine, db), ServedRows(plan, names, engine, other))
  {
    hide BucketFirst, HavingGrouped, SourceRows, ServedGroups, PlanKey, FirstSeen, Grouped, GroupPart;
    var ts, us := SourceRows(plan, names, db), SourceRows(plan, names, other);
    var keyOf := PlanKey(plan, engine);
    var ks, ls := KeysOf(ts, keyOf), KeysOf(us, keyOf);
    KeysPermute(ts, us, keyOf);
    var groups, others := GroupKeys(Grouped(plan), ks), GroupKeys(Grouped(plan), ls);
    GroupsSpread(plan, names, engine, ts, ks, groups);
    GroupsSpread(plan, names, engine, us, ls, others);
    var p, q := GroupPart(plan, names, engine, ts, ks), GroupPart(plan, names, engine, us, ls);
    SpreadPermutes(groups, others, p);
    forall k | k in others
      ensures p(k) == q(k)
    {
      GroupPermutes(plan, names, engine, ts, us, k);
    }
    SpreadAgrees(others, p, q);
  }

  // -- tenants ---------------------------------------------------------------------------------------------

  /** Two databases hold the same rows that the tenant may see of a scanned table, in any order. */
  predicate AgreeInAnyOrder(keys: TenantKeys, tenant: Value, scan: Scan, db: Database, other: Database) {
    Same(Visible(keys, tenant, scan.table, RowsOf(db, scan.physical)), Visible(keys, tenant, scan.table, RowsOf(other, scan.physical)))
  }

  lemma {:induction false} OwnPartInAnyOrder(keys: TenantKeys, tenant: Value, joins: seq<Join>, names: Names, db: Database, other: Database,
                                             ts: seq<Tuple<TableId>>, us: seq<Tuple<TableId>>, tables: set<TableId>)
    requires NewTables(tables, joins) && Spanning(ts, tables) && Spanning(us, tables)
    requires forall j :: j in joins ==> AgreeInAnyOrder(keys, tenant, j.right, db, other)
    requires Same(Filter(ts, Own(keys, tenant)), Filter(us, Own(keys, tenant)))
    ensures Same(Filter(JoinRows(joins, names, db, ts), Own(keys, tenant)), Filter(JoinRows(joins, names, other, us), Own(keys, tenant)))
    decreases |joins|
  {
    if joins != [] {
      hide Holds, Own, Visible, JoinAll;
      var j := joins[0];
      assert j in joins && forall k :: k in joins[1..] ==> k in joins;
      var on, table, outer := Holds(j.predicates, names), j.right.table, j.joinType.LeftOuter?;
      var rows, rows' := RowsOf(db, j.right.physical), RowsOf(other, j.right.physical);
      OwnPartOfJoinAll(keys, tenant, on, ts, tables, table, rows, outer);
      OwnPartOfJoinAll(keys, tenant, on, us, tables, table, rows', outer);
      JoinAllPermutes(on, Filter(ts, Own(keys, tenant)), Filter(us, Own(keys, tenant)), table,
                      Visible(keys, tenant, table, rows), Visible(keys, tenant, table, rows'), outer && table !in keys);
      JoinAllSpans(on, ts, tables, table, rows, outer);
      JoinAllSpans(on, us, tables, table, rows', outer);
      OwnPartInAnyOrder(keys, tenant, joins[1..], names, db, other, JoinAll(on, ts, table, rows, outer),
                        JoinAll(on, us, table, rows', outer), tables + {table});
    }
  }

  /** The filtered rows agree as bags. */
  lemma SourcesAgreeInAnyOrder(keys: TenantKeys, plan: LogicalPlan, names: Names, tenant: Value, db: Database, other: Database)
    requires DistinctScans(Scans(plan)) && Isolated(keys, plan)
    requires "p_tenant" in names.supplied && names.supplied["p_tenant"] == tenant
    requires forall scan :: scan in Scans(plan) ==> AgreeInAnyOrder(keys, tenant, scan, db, other)
    ensures Same(SourceRows(plan, names, db), SourceRows(plan, names, other))
  {
    hide SourceRows, Isolated, DistinctScans, JoinRows, Visible, Own, Holds, NewTables, ScanRows;
    var base := plan.base;
    var rows, rows' := RowsOf(db, base.physical), RowsOf(other, base.physical);
    var ts, us := ScanRows(base.table, rows), ScanRows(base.table, rows');
    SourceIsOwn(keys, plan, names, tenant, db);
    SourceIsOwn(keys, plan, names, tenant, other);
    OwnPartOfScan(keys, tenant, base.table, rows);
    OwnPartOfScan(keys, tenant, base.table, rows');
    assert Scans(plan)[0] == base;
    assert base in Scans(plan);
    ScanPermutes(base.table, Visible(keys, tenant, base.table, rows), Visible(keys, tenant, base.table, rows'));
    forall j | j in plan.joins
      ensures AgreeInAnyOrder(keys, tenant, j.right, db, other)
    {
      var i :| 0 <= i < |plan.joins| && plan.joins[i] == j;
      assert Scans(plan)[i + 1] == j.right;
    }
    DistinctAreNew([base], plan.joins, {base.table});
    OneTableEach(base.table, rows);
    OneTableEach(base.table, rows');
    OwnPartInAnyOrder(keys, tenant, plan.joins, names, db, other, ts, us, {base.table});
    FilterPermutes(Filter(JoinRows(plan.joins, names, db, ts), Own(keys, tenant)),
                   Filter(JoinRows(plan.joins, names, other, us), Own(keys, tenant)), Holds(plan.where, names));
  }

  lemma OneTableEach(table: TableId, rows: seq<Row>)
    ensures Spanning(ScanRows(table, rows), {table})
  {
  }

  /**
    Tenant isolation of executed queries, whatever the order in which the databases list their rows:
    the answers are permutations of each other. HAVING must read grouping columns alone, as SQL
    demands; otherwise the order decides which row it reads.
  */
  lemma TenantsSeeTheirOwnRowsInAnyOrder(bundle: Bundle, scope: Scope, request: Request, r: BindResult, plan: LogicalPlan,
                                         parameters: map<string, Value>, engine: SQ.Engine, db: Database, other: Database)
    requires Ready(bundle, scope, request, r, plan, parameters) && NeedsTenant(r.plan.obligations) && HavingGrouped(plan)
    requires "p_tenant" in parameters ==> parameters["p_tenant"] == scope.tenant
    requires forall scan :: scan in Scans(plan) ==> AgreeInAnyOrder(TenantKeysOf(bundle), scope.tenant, scan, db, other)
    ensures Runnable(bundle, plan, scope, parameters)
    ensures Arranges(Executed(bundle, plan, scope, parameters, engine, db), Executed(bundle, plan, scope, parameters, engine, other))
  {
    hide Ready, BoundFrom, LoweredFrom, Runnable, Executed, PlanRows, ServedRows, RowsRight, NothingRefused, DistinctScans, Isolated,
      AgreeInAnyOrder, ScansOf, NeedsTenant, HavingGrouped, SourceRows, BucketFirst, Tree, NoDuplicates;
    ReadyIsLowered(bundle, scope, request, r, plan, parameters);
    ExecutedAreServed(bundle, scope, request, r, plan, parameters, engine, db);
    ExecutedAreServed(bundle, scope, request, r, plan, parameters, engine, other);
    ScansOfPlan(bundle, scope, request, r, plan);
    LoweringIsolatesTenants(bundle, scope, r, plan);
    var names := EnvOf(bundle, plan, scope, parameters).names;
    SourcesAgreeInAnyOrder(TenantKeysOf(bundle), plan, names, scope.tenant, db, other);
    ServedPermute(plan, names, engine, db, other);
  }

  lemma ScansOfPlan(bundle: Bundle, scope: Scope, request: Request, r: BindResult, plan: LogicalPlan)
    requires BoundFrom(bundle, scope, request, r) && LoweredFrom(bundle, scope, r, plan)
    ensures ScansOf(bundle, PlannedTables(r.joins), Scans(plan)) && DistinctScans(Scans(plan))
  {
    hide BoundFrom, LowerPlan, BundleWellFormed, CatalogPublished, ScansOf, DistinctScans, NoDuplicates, Tree;
    var s := JoinTree(bundle, scope, request, r);
    PlannedAreDistinct(s, r.joins);
    LoweredJoins(bundle, scope, r.plan, r.joins, plan);
  }
}
