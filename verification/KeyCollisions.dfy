/**
  When the duplicate-key check can block a correct result: for which accepted requests some
  database holds two groups that differ only in columns the check never looks at.
*/
module KeyCollisions {
  import opened Errors
  import opened Values
  import opened Expressions
  import opened Catalog
  import opened Ordering
  import opened Plans
  import opened Planner
  import opened Relational
  import opened SQ = SqlQuery
  import opened PlanMeaning
  import opened Emissions
  import opened Lowering
  import opened FanOut
  import opened Tenancy
  import opened Binder
  import opened Scoping
  import opened EndToEnd
  import opened JoinedRows
  import opened ValidatorAcceptance
  import opened Results
  import opened ResultKeys

  // -- combinations of rows ---------------------------------------------

  /** A combination of rows, from any database, that meets every condition of the plan. */
  predicate Passes(plan: LogicalPlan, names: Names, t: Tuple<TableId>) {
    && t.Keys == {plan.base.table} + Joined(plan.joins)
    && (forall j :: j in plan.joins ==> Holds(j.predicates, names)(t))
    && Holds(plan.where, names)(t) && Holds(plan.having, names)(t)
  }

  /** Two combinations of different groups that look the same to the check. */
  predicate Confused(plan: LogicalPlan, names: Names, engine: SQ.Engine, t: Tuple<TableId>, u: Tuple<TableId>) {
    var a, b := PlanKey(plan, engine)(t), PlanKey(plan, engine)(u);
    && Passes(plan, names, t) && Passes(plan, names, u)
    && a != b && |a| == |b| == |plan.outputGrain| && AgreeWhereSeen(plan.outputGrain, a, b)
  }

  /** HAVING reads grouping columns alone. */
  predicate HavingGrouped(plan: LogicalPlan) {
    forall c :: c in ColumnsInAll(plan.having) ==> exists p :: 0 <= p < |plan.groupBy| && plan.groupBy[p].1 == Some(c)
  }

  predicate OwnNames(scans: seq<Scan>) {
    forall i, j :: 0 <= i < j < |scans| ==> scans[i].physical != scans[j].physical
  }

  /** Two rows in every scanned table. */
  function DatabaseOf(scans: seq<Scan>, t: Tuple<TableId>, u: Tuple<TableId>): Database
    requires forall s :: s in scans ==> s.table in t && s.table in u
  {
    if scans == [] then map[]
    else
      var n := |scans| - 1;
      assert forall s :: s in scans[..n] ==> s in scans;
      DatabaseOf(scans[..n], t, u)[scans[n].physical := [t[scans[n].table], u[scans[n].table]]]
  }

  lemma {:induction false} TwoRowsEach(scans: seq<Scan>, t: Tuple<TableId>, u: Tuple<TableId>)
    requires (forall s :: s in scans ==> s.table in t && s.table in u) && OwnNames(scans)
    ensures forall s :: s in scans ==> RowsOf(DatabaseOf(scans, t, u), s.physical) == [t[s.table], u[s.table]]
  {
    if scans != [] {
      var n := |scans| - 1;
      var rest := scans[..n];
      assert forall s :: s in rest ==> s in scans;
      assert OwnNames(rest);
      TwoRowsEach(rest, t, u);
      forall s | s in scans
        ensures RowsOf(DatabaseOf(scans, t, u), s.physical) == [t[s.table], u[s.table]]
      {
        var i :| 0 <= i < |scans| && scans[i] == s;
        if i < n {
          assert rest[i] == s && s in rest && scans[i].physical != scans[n].physical;
        }
      }
    }
  }

  /** The scans of a plan are its base and its joins' tables. */
  lemma ScansAre(plan: LogicalPlan, t: Tuple<TableId>)
    requires t.Keys == {plan.base.table} + Joined(plan.joins)
    ensures plan.base in Scans(plan) && forall j :: j in plan.joins ==> j.right in Scans(plan)
    ensures forall s :: s in Scans(plan) ==> s.table in t
  {
    assert Scans(plan)[0] == plan.base;
    forall j | j in plan.joins
      ensures j.right in Scans(plan)
    {
      var i :| 0 <= i < |plan.joins| && plan.joins[i] == j;
      assert Scans(plan)[i + 1] == j.right;
    }
    forall s | s in Scans(plan)
      ensures s.table in t
    {
      var i :| 0 <= i < |Scans(plan)| && Scans(plan)[i] == s;
      if i > 0 {
        assert plan.joins[i - 1] in plan.joins;
      }
    }
  }

  lemma BothAreCombinations(plan: LogicalPlan, names: Names, t: Tuple<TableId>, u: Tuple<TableId>)
    requires OwnNames(Scans(plan)) && Passes(plan, names, t) && Passes(plan, names, u)
    ensures forall s :: s in Scans(plan) ==> s.table in t && s.table in u
    ensures var db := DatabaseOf(Scans(plan), t, u); Combination(plan, names, db, t) && Combination(plan, names, db, u)
  {
    hide Holds, OwnNames, Joined;
    ScansAre(plan, t);
    ScansAre(plan, u);
    TwoRowsEach(Scans(plan), t, u);
  }

  lemma {:induction false} FirstMember(ts: seq<Tuple<TableId>>, ks: seq<Key>, k: Key, keyOf: Tuple<TableId> -> Key)
    requires |ts| == |ks| && (forall i :: 0 <= i < |ts| ==> ks[i] == keyOf(ts[i])) && k in ks
    ensures Members(ts, ks, k) != [] && Members(ts, ks, k)[0] in ts && keyOf(Members(ts, ks, k)[0]) == k
  {
    if ks[0] != k {
      FirstMember(ts[1..], ks[1..], k, keyOf);
      assert [] + Members(ts[1..], ks[1..], k) == Members(ts[1..], ks[1..], k);
    }
  }

  /** Rows of one group agree on grouping columns, so HAVING over them holds of all or none. */
  lemma HavingOfGroup(plan: LogicalPlan, names: Names, engine: SQ.Engine, t: Tuple<TableId>, u: Tuple<TableId>)
    requires BucketFirst(plan) && HavingGrouped(plan) && PlanKey(plan, engine)(t) == PlanKey(plan, engine)(u)
    ensures Holds(plan.having, names)(t) <==> Holds(plan.having, names)(u)
  {
    hide PlanKey, BucketFirst;
    KeyValues(plan, engine, t);
    KeyValues(plan, engine, u);
    forall c | c in ColumnsInAll(plan.having)
      ensures Field(t, c.table, c.name) == Field(u, c.table, c.name)
    {
      var p :| 0 <= p < |plan.groupBy| && plan.groupBy[p].1 == Some(c);
      assert PlanKey(plan, engine)(t)[p] == PlanKey(plan, engine)(u)[p];
    }
    ListReadsOnlyItsColumns(plan.having, names, t, u);
  }

  /** The group of a row that meets HAVING is kept. */
  lemma RowKeepsItsKey(plan: LogicalPlan, names: Names, engine: SQ.Engine, db: Database, t: Tuple<TableId>)
    requires BucketFirst(plan) && HavingGrouped(plan) && Grouped(plan)
    requires t in SourceRows(plan, names, db) && Holds(plan.having, names)(t)
    ensures KeptKey(plan, names, engine, db, PlanKey(plan, engine)(t))
  {
    hide SourceRows, PlanKey, Holds, HavingGrouped, BucketFirst, FirstSeen, Members, Grouped;
    var ts, k := SourceRows(plan, names, db), PlanKey(plan, engine)(t);
    var ks := KeysOf(ts, PlanKey(plan, engine));
    var i :| 0 <= i < |ts| && ts[i] == t;
    assert ks[i] == k;
    FirstMember(ts, ks, k, PlanKey(plan, engine));
    HavingOfGroup(plan, names, engine, t, Members(ts, ks, k)[0]);
  }

  /** Two confused combinations, stored in a database of their own, clash there. */
  lemma ConfusedClash(plan: LogicalPlan, names: Names, engine: SQ.Engine, t: Tuple<TableId>, u: Tuple<TableId>)
    requires Shaped(plan) && HavingGrouped(plan) && OwnNames(Scans(plan)) && ReadsEarlier({plan.base.table}, plan.joins)
    requires Confused(plan, names, engine, t, u)
    ensures forall s :: s in Scans(plan) ==> s.table in t && s.table in u
    ensures Clash(plan, names, engine, DatabaseOf(Scans(plan), t, u))
  {
    hide HavingGrouped, OwnNames, ReadsEarlier, PlanKey, BucketFirst, SourceRows, KeptKey, AgreeWhereSeen, Combination, DatabaseOf;
    BothAreCombinations(plan, names, t, u);
    var db := DatabaseOf(Scans(plan), t, u);
    CombinationsAreRows(plan, names, db, t);
    CombinationsAreRows(plan, names, db, u);
    KeyValues(plan, engine, t);
    RowKeepsItsKey(plan, names, engine, db, t);
    RowKeepsItsKey(plan, names, engine, db, u);
    assert Clash(plan, names, engine, db);
  }

  /** A kept key is the key of a row that meets every condition. */
  lemma KeptKeyOfRow(plan: LogicalPlan, names: Names, engine: SQ.Engine, db: Database, k: Key) returns (t: Tuple<TableId>)
    requires Grouped(plan) && KeptKey(plan, names, engine, db, k)
    ensures t in SourceRows(plan, names, db) && PlanKey(plan, engine)(t) == k && Holds(plan.having, names)(t)
  {
    hide SourceRows, PlanKey, Holds, Grouped, Members, FirstSeen;
    var ts := SourceRows(plan, names, db);
    var ks := KeysOf(ts, PlanKey(plan, engine));
    FirstMember(ts, ks, k, PlanKey(plan, engine));
    t := Members(ts, ks, k)[0];
  }

  /**
    With inner joins and a HAVING over grouping columns: some database makes two groups clash
    exactly when two combinations of rows that meet every condition are confused.
  */
  lemma ClashesExactly(plan: LogicalPlan, names: Names, engine: SQ.Engine)
    requires Shaped(plan) && HavingGrouped(plan) && OwnNames(Scans(plan))
    requires ReadsEarlier({plan.base.table}, plan.joins) && NewTables({plan.base.table}, plan.joins)
    requires forall j :: j in plan.joins ==> j.joinType.Inner?
    ensures (exists db :: Clash(plan, names, engine, db)) <==> exists t, u :: Confused(plan, names, engine, t, u)
  {
    hide Shaped, HavingGrouped, OwnNames, ReadsEarlier, NewTables, Clash, Confused;
    if t, u :| Confused(plan, names, engine, t, u) {
      ConfusedClash(plan, names, engine, t, u);
    }
    if db :| Clash(plan, names, engine, db) {
      ClashConfuses(plan, names, engine, db);
    }
  }

  lemma ClashConfuses(plan: LogicalPlan, names: Names, engine: SQ.Engine, db: Database)
    requires ReadsEarlier({plan.base.table}, plan.joins) && NewTables({plan.base.table}, plan.joins)
    requires (forall j :: j in plan.joins ==> j.joinType.Inner?) && Clash(plan, names, engine, db)
    ensures exists t, u :: Confused(plan, names, engine, t, u)
  {
    hide ReadsEarlier, NewTables, PlanKey, SourceRows, KeptKey, AgreeWhereSeen, Holds, GroupKeys;
    var a, b :| KeptKey(plan, names, engine, db, a) && KeptKey(plan, names, engine, db, b) && a != b
                && |a| == |b| == |plan.outputGrain| && AgreeWhereSeen(plan.outputGrain, a, b);
    DifferentKeysAreGrouped(plan, names, engine, db, a, b);
    var t := KeptKeyOfRow(plan, names, engine, db, a);
    var u := KeptKeyOfRow(plan, names, engine, db, b);
    RowsAreCombinations(plan, names, db, t);
    RowsAreCombinations(plan, names, db, u);
    assert Confused(plan, names, engine, t, u);
  }

  lemma DifferentKeysAreGrouped(plan: LogicalPlan, names: Names, engine: SQ.Engine, db: Database, a: Key, b: Key)
    requires KeptKey(plan, names, engine, db, a) && KeptKey(plan, names, engine, db, b) && a != b
    ensures Grouped(plan)
  {
    hide SourceRows, PlanKey, KeptGroup, FirstSeen;
  }

  // -- a hidden column --------------------------------------------------------------------------------------

  /** A grouping column that the check never looks at and that no condition and no time bucket reads. */
  predicate HiddenColumn(plan: LogicalPlan, c: ColumnId) {
    && |plan.outputGrain| == |plan.groupBy| && (exists p :: 0 <= p < |plan.groupBy| && plan.groupBy[p].1 == Some(c))
    && !ExpressionSeen(plan, Some(c)) && c.table in {plan.base.table} + Joined(plan.joins)
    && (forall j :: j in plan.joins ==> c !in ColumnsInAll(j.predicates))
    && c !in ColumnsInAll(plan.where) && c !in ColumnsInAll(plan.having)
    && (plan.timeBucket.Some? ==> plan.timeBucket.value.column != c)
  }

  function Changed(t: Tuple<TableId>, c: ColumnId, v: Value): Tuple<TableId>
    requires c.table in t
  {
    t[c.table := t[c.table][c.name := v]]
  }

  lemma OtherFieldsStay(t: Tuple<TableId>, c: ColumnId, v: Value)
    requires c.table in t
    ensures Field(Changed(t, c, v), c.table, c.name) == v
    ensures forall d: ColumnId :: d != c ==> Field(Changed(t, c, v), d.table, d.name) == Field(t, d.table, d.name)
  {
    forall d: ColumnId | d != c
      ensures Field(Changed(t, c, v), d.table, d.name) == Field(t, d.table, d.name)
    {
      assert d.table != c.table || d.name != c.name;
    }
  }

  lemma ChangeUnread(ps: seq<Predicate>, names: Names, t: Tuple<TableId>, c: ColumnId, v: Value)
    requires c.table in t && c !in ColumnsInAll(ps)
    ensures Holds(ps, names)(Changed(t, c, v)) <==> Holds(ps, names)(t)
  {
    OtherFieldsStay(t, c, v);
    ListReadsOnlyItsColumns(ps, names, Changed(t, c, v), t);
  }

  lemma ChangedPasses(plan: LogicalPlan, names: Names, t: Tuple<TableId>, c: ColumnId, v: Value)
    requires HiddenColumn(plan, c) && Passes(plan, names, t)
    ensures Passes(plan, names, Changed(t, c, v))
  {
    hide Holds, ExpressionSeen;
    forall j | j in plan.joins
      ensures Holds(j.predicates, names)(Changed(t, c, v))
    {
      ChangeUnread(j.predicates, names, t, c, v);
    }
    ChangeUnread(plan.where, names, t, c, v);
    ChangeUnread(plan.having, names, t, c, v);
  }

  /** Changing a hidden column of a row that meets every condition leads to a group the check cannot tell apart. */
  lemma HiddenColumnsConfuse(plan: LogicalPlan, names: Names, engine: SQ.Engine, t: Tuple<TableId>, c: ColumnId)
    requires Shaped(plan) && HiddenColumn(plan, c) && Passes(plan, names, t)
    ensures exists u :: Confused(plan, names, engine, t, u)
  {
    hide Passes, PlanKey, BucketFirst, AliasesOf, Seen;
    var v := if Field(t, c.table, c.name) == Null then Boolean(true) else Null;
    assert c.table in t by { PassingKeys(plan, names, t); }
    var u := Changed(t, c, v);
    ChangedPasses(plan, names, t, c, v);
    OtherFieldsStay(t, c, v);
    KeyValues(plan, engine, t);
    KeyValues(plan, engine, u);
    var p :| 0 <= p < |plan.groupBy| && plan.groupBy[p].1 == Some(c);
    assert PlanKey(plan, engine)(t)[p] != PlanKey(plan, engine)(u)[p];
    forall q | 0 <= q < |plan.outputGrain| && Seen(plan.outputGrain, q)
      ensures PlanKey(plan, engine)(t)[q] == PlanKey(plan, engine)(u)[q]
    {
      assert plan.groupBy[q].1 != Some(c);
    }
    assert Confused(plan, names, engine, t, u);
  }

  lemma PassingKeys(plan: LogicalPlan, names: Names, t: Tuple<TableId>)
    requires Passes(plan, names, t)
    ensures t.Keys == {plan.base.table} + Joined(plan.joins)
  {
  }

  // -- databases on which accepted requests are blocked ---------------------------------------------------

  function FirstTables(plan: LogicalPlan, i: nat): set<TableId>
    requires i <= |plan.joins|
  {
    set n | 0 <= n <= i :: Scans(plan)[n].table
  }

  predicate JoinReadsEarlier(plan: LogicalPlan, i: nat)
    requires i < |plan.joins|
  {
    forall c :: c in ColumnsInAll(plan.joins[i].predicates) ==> c.table in FirstTables(plan, i + 1)
  }

  lemma {:induction false} EarlierFrom(plan: LogicalPlan, i: nat)
    requires i <= |plan.joins| && forall k :: 0 <= k < |plan.joins| ==> JoinReadsEarlier(plan, k)
    ensures ReadsEarlier(FirstTables(plan, i), plan.joins[i..])
    decreases |plan.joins| - i
  {
    hide ColumnsInAll;
    if i < |plan.joins| {
      EarlierFrom(plan, i + 1);
      assert JoinReadsEarlier(plan, i);
      assert Scans(plan)[i + 1] == plan.joins[i].right;
      assert FirstTables(plan, i + 1) == FirstTables(plan, i) + {plan.joins[i].right.table};
      assert plan.joins[i..][1..] == plan.joins[i + 1..];
    }
  }

  lemma JoinsReadEarlier(bundle: Bundle, scope: Scope, request: Request, r: BindResult, plan: LogicalPlan, i: nat)
    requires BoundFrom(bundle, scope, request, r) && LoweredFrom(bundle, scope, r, plan) && i < |plan.joins|
    ensures JoinReadsEarlier(plan, i)
  {
    hide BoundFrom, LoweredFrom, ColumnsInAll;
    ScopingIsClosed(bundle, scope, request, r, plan);
    forall c | c in ColumnsInAll(plan.joins[i].predicates)
      ensures c.table in FirstTables(plan, i + 1)
    {
      var k :| 0 <= k <= i + 1 && Scans(plan)[k].table == c.table;
    }
  }

  lemma EarlierThroughout(bundle: Bundle, scope: Scope, request: Request, r: BindResult, plan: LogicalPlan)
    requires BoundFrom(bundle, scope, request, r) && LoweredFrom(bundle, scope, r, plan)
    ensures ReadsEarlier({plan.base.table}, plan.joins)
  {
    hide BoundFrom, LoweredFrom, JoinReadsEarlier, ReadsEarlier;
    forall i | 0 <= i < |plan.joins|
      ensures JoinReadsEarlier(plan, i)
    {
      JoinsReadEarlier(bundle, scope, request, r, plan, i);
    }
    EarlierFrom(plan, 0);
    assert Scans(plan)[0] == plan.base;
    assert FirstTables(plan, 0) == {plan.base.table};
    assert plan.joins[0..] == plan.joins;
  }

  lemma PhysicalNamesDiffer(bundle: Bundle, tables: seq<TableId>, scans: seq<Scan>)
    requires PhysicalUnique(bundle) && ScansOf(bundle, tables, scans) && DistinctScans(scans)
    ensures OwnNames(scans)
  {
    forall i, j | 0 <= i < j < |scans|
      ensures scans[i].physical != scans[j].physical
    {
      assert ScanOf(bundle, tables, scans[i], i) && ScanOf(bundle, tables, scans[j], j);
    }
  }

  /** The scans of an accepted request's plan have their own physical names, and its joins read from left to right. */
  lemma AcceptedPlansAreOrdered(bundle: Bundle, scope: Scope, request: Request, r: BindResult, plan: LogicalPlan)
    requires BoundFrom(bundle, scope, request, r) && LoweredFrom(bundle, scope, r, plan)
    ensures OwnNames(Scans(plan)) && ReadsEarlier({plan.base.table}, plan.joins) && NewTables({plan.base.table}, plan.joins)
  {
    hide BoundFrom, LowerPlan, BundleWellFormed, CatalogPublished, DistinctScans, ScansOf, ReadsEarlier, OwnNames, Tree, NoDuplicates,
      PhysicalUnique, AllLowered;
    NamesAreUnique(bundle);
    var s := JoinTree(bundle, scope, request, r);
    PlannedAreDistinct(s, r.joins);
    LoweredJoins(bundle, scope, r.plan, r.joins, plan);
    PhysicalNamesDiffer(bundle, PlannedTables(r.joins), Scans(plan));
    EarlierThroughout(bundle, scope, request, r, plan);
    DistinctAreNew([plan.base], plan.joins, {plan.base.table});
  }

  /** Some database gives the request rows that its own contract's check blocks. */
  ghost predicate CanBlock(bundle: Bundle, scope: Scope, r: BindResult, plan: LogicalPlan, parameters: map<string, Value>, engine: SQ.Engine)
    requires Runnable(bundle, plan, scope, parameters)
  {
    exists db :: Blocked(bundle, scope, r.plan.contract, plan, parameters, engine, db)
  }

  predicate Blocked(bundle: Bundle, scope: Scope, c: Contract, plan: LogicalPlan, parameters: map<string, Value>, engine: SQ.Engine, db: Database)
    requires Runnable(bundle, plan, scope, parameters)
  {
    var rows := Executed(bundle, plan, scope, parameters, engine, db);
    WellShaped(c, rows) && !KeysUnique(c.columns, c.uniqueKeys, rows)
  }

  lemma CanBlockIsClash(bundle: Bundle, scope: Scope, request: Request, r: BindResult, plan: LogicalPlan,
                        parameters: map<string, Value>, engine: SQ.Engine)
    requires Ready(bundle, scope, request, r, plan, parameters)
    ensures Runnable(bundle, plan, scope, parameters)
    ensures CanBlock(bundle, scope, r, plan, parameters, engine) <==>
              exists db :: Clash(plan, EnvOf(bundle, plan, scope, parameters).names, engine, db)
  {
    hide Ready, Runnable, Executed, Clash, KeysUnique, KeyedRows, EnvOf;
    CheckBlocksExactly(bundle, scope, request, r, plan, parameters, engine, map[]);
    forall db: Database
      ensures Blocked(bundle, scope, r.plan.contract, plan, parameters, engine, db) <==>
                Clash(plan, EnvOf(bundle, plan, scope, parameters).names, engine, db)
    {
      CheckBlocksExactly(bundle, scope, request, r, plan, parameters, engine, db);
    }
  }

  /**
    For every accepted request with inner joins and a HAVING over grouping columns: the check can
    block its rows exactly when two combinations of rows that meet every condition are confused.
  */
  lemma CollisionsBlockExactly(bundle: Bundle, scope: Scope, request: Request, r: BindResult, plan: LogicalPlan,
                               parameters: map<string, Value>, engine: SQ.Engine)
    requires Ready(bundle, scope, request, r, plan, parameters)
    requires HavingGrouped(plan) && forall j :: j in plan.joins ==> j.joinType.Inner?
    ensures Runnable(bundle, plan, scope, parameters)
    ensures CanBlock(bundle, scope, r, plan, parameters, engine) <==>
              exists t, u :: Confused(plan, EnvOf(bundle, plan, scope, parameters).names, engine, t, u)
  {
    hide Ready, Runnable, CanBlock, Clash, EnvOf, HavingGrouped, OwnNames, ReadsEarlier, NewTables, Shaped, Confused;
    ReadyIsLowered(bundle, scope, request, r, plan, parameters);
    AcceptedPlansAreShaped(bundle, scope, request, r, plan);
    AcceptedPlansAreOrdered(bundle, scope, request, r, plan);
    CanBlockIsClash(bundle, scope, request, r, plan, parameters, engine);
    ClashesExactly(plan, EnvOf(bundle, plan, scope, parameters).names, engine);
  }

  /**
    For every accepted request, with any joins: a grouping column hidden behind an earlier column's
    name, and read by no condition, makes the check block the rows of some database, if any
    combination of rows meets the conditions at all.
  */
  lemma HiddenColumnsBlock(bundle: Bundle, scope: Scope, request: Request, r: BindResult, plan: LogicalPlan,
                           parameters: map<string, Value>, engine: SQ.Engine, t: Tuple<TableId>, c: ColumnId)
    requires Ready(bundle, scope, request, r, plan, parameters) && HavingGrouped(plan)
    requires HiddenColumn(plan, c) && Passes(plan, EnvOf(bundle, plan, scope, parameters).names, t)
    ensures Runnable(bundle, plan, scope, parameters)
    ensures CanBlock(bundle, scope, r, plan, parameters, engine)
  {
    hide Ready, Runnable, CanBlock, Clash, EnvOf, HavingGrouped, OwnNames, ReadsEarlier, NewTables, Shaped, Confused, Passes, HiddenColumn;
    ReadyIsLowered(bundle, scope, request, r, plan, parameters);
    AcceptedPlansAreShaped(bundle, scope, request, r, plan);
    AcceptedPlansAreOrdered(bundle, scope, request, r, plan);
    CanBlockIsClash(bundle, scope, request, r, plan, parameters, engine);
    var names := EnvOf(bundle, plan, scope, parameters).names;
    HiddenColumnsConfuse(plan, names, engine, t, c);
    var u :| Confused(plan, names, engine, t, u);
    ConfusedClash(plan, names, engine, t, u);
  }
}
