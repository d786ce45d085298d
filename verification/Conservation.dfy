/**
  Attestation implies conservation: when every join of a plan is attested and every attestation
  passes, the plan's SUM neither double counts nor loses a fact, grouped or not.
*/
module Conservation {
  import opened Errors
  import opened Values
  import opened Expressions
  import opened Catalog
  import opened Ordering
  import opened Plans
  import opened Relational
  import opened SqlQuery
  import opened PlanMeaning
  import opened RatioMeaning
  import opened Bags
  import opened Emissions
  import opened CompilerMeaning
  import opened QueryMeaning
  import opened Lowering
  import opened FanOut
  import opened Tenancy
  import opened Attestations
  import opened AttestationMeaning

  // -- each fact has one completion ---------------------------------------------------------------

  /** Inner joins that compare columns of the base table and of the joined table only. */
  predicate FromBase(base: TableId, joins: seq<Join>) {
    forall j :: j in joins ==> JoinsBase(base, j)
  }

  predicate JoinsBase(base: TableId, j: Join) {
    j.joinType.Inner? && j.right.table != base && forall c :: c in ColumnsInAll(j.predicates) ==> c.table in {base, j.right.table}
  }

  /** Every join finds exactly one row for the fact. */
  predicate MatchedOnce(base: TableId, joins: seq<Join>, names: Names, db: Database, fact: Row) {
    forall j :: j in joins ==> Matches(base, j, names, RowsOf(db, j.right.physical), fact) == 1
  }

  /** The joined row that extends a fact by the one row each join finds for it. */
  function Completion(base: TableId, joins: seq<Join>, names: Names, db: Database, fact: Row): Tuple<TableId> {
    var ts := JoinRows(joins, names, db, [map[base := fact]]);
    if |ts| == 1 then ts[0] else map[base := fact]
  }

  /** A row of the joined table that matches the fact. */
  predicate IsVersion(base: TableId, j: Join, names: Names, db: Database, fact: Row, t: Tuple<TableId>) {
    && j.right.table in t && t[j.right.table] in RowsOf(db, j.right.physical)
    && Holds(j.predicates, names)(map[base := fact][j.right.table := t[j.right.table]])
  }

  lemma OneMatch(base: TableId, j: Join, names: Names, db: Database, t: Tuple<TableId>) returns (u: Tuple<TableId>)
    requires base in t && JoinsBase(base, j) && j.right.table !in t
    requires Matches(base, j, names, RowsOf(db, j.right.physical), t[base]) == 1
    ensures JoinOne(Holds(j.predicates, names), t, j.right.table, RowsOf(db, j.right.physical), false) == [u]
    ensures u.Keys == t.Keys + {j.right.table} && forall x :: x in t ==> u[x] == t[x]
    ensures IsVersion(base, j, names, db, t[base], u)
  {
    var on, right, rows := Holds(j.predicates, names), j.right.table, RowsOf(db, j.right.physical);
    MatchingReadsItsTables(j.predicates, names, t, base, right, rows);
    var ms := Matching(on, t, right, rows);
    u := ms[0];
    assert u in ms;
    MatchingContents(on, t, right, rows);
    var r :| r in rows && u == t[right := r];
    ListReadsOnlyItsColumns(j.predicates, names, u, map[base := t[base]][right := r]);
  }

  lemma {:induction false} OneCompletion(base: TableId, joins: seq<Join>, names: Names, db: Database, t: Tuple<TableId>)
    returns (u: Tuple<TableId>)
    requires base in t && FromBase(base, joins) && NewTables(t.Keys, joins) && MatchedOnce(base, joins, names, db, t[base])
    ensures JoinRows(joins, names, db, [t]) == [u]
    ensures t.Keys <= u.Keys && forall x :: x in t ==> u[x] == t[x]
    ensures forall j :: j in joins ==> IsVersion(base, j, names, db, t[base], u)
    decreases |joins|
  {
    hide IsVersion, JoinsBase, Matches, JoinOne;
    if joins == [] {
      u := t;
    } else {
      var j, rest := joins[0], joins[1..];
      assert j in joins && forall k :: k in rest ==> k in joins;
      JoinsNew(base, j);
      var v := OneMatch(base, j, names, db, t);
      JoinRowsOfOne(joins, names, db, t);
      u := OneCompletion(base, rest, names, db, v);
      VersionKept(base, j, names, db, t[base], v, u);
    }
  }

  lemma JoinsNew(base: TableId, j: Join)
    requires JoinsBase(base, j)
    ensures !j.joinType.LeftOuter? && j.right.table != base
  {
  }

  lemma VersionKept(base: TableId, j: Join, names: Names, db: Database, fact: Row, v: Tuple<TableId>, u: Tuple<TableId>)
    requires IsVersion(base, j, names, db, fact, v) && v.Keys <= u.Keys && forall x :: x in v ==> u[x] == v[x]
    ensures IsVersion(base, j, names, db, fact, u)
  {
  }

  /** A fact that every join matches once has one joined row, made of the fact and of matching rows. */
  lemma CompletionOf(base: TableId, joins: seq<Join>, names: Names, db: Database, fact: Row)
    requires FromBase(base, joins) && NewTables({base}, joins) && MatchedOnce(base, joins, names, db, fact)
    ensures var t := Completion(base, joins, names, db, fact);
            && JoinRows(joins, names, db, [map[base := fact]]) == [t] && base in t && t[base] == fact
            && forall j :: j in joins ==> IsVersion(base, j, names, db, fact, t)
  {
    assert map[base := fact].Keys == {base};
    var u := OneCompletion(base, joins, names, db, map[base := fact]);
  }

  function Completions(base: TableId, joins: seq<Join>, names: Names, db: Database, facts: seq<Row>): (ts: seq<Tuple<TableId>>)
    ensures |ts| == |facts| && forall i :: 0 <= i < |facts| ==> ts[i] == Completion(base, joins, names, db, facts[i])
  {
    if facts == [] then []
    else [Completion(base, joins, names, db, facts[0])] + Completions(base, joins, names, db, facts[1..])
  }

  lemma {:induction false} JoinedFacts(base: TableId, joins: seq<Join>, names: Names, db: Database, facts: seq<Row>)
    requires FromBase(base, joins) && NewTables({base}, joins)
    requires forall f :: f in facts ==> MatchedOnce(base, joins, names, db, f)
    ensures JoinRows(joins, names, db, ScanRows(base, facts)) == Completions(base, joins, names, db, facts)
  {
    hide Completion, JoinRows, MatchedOnce, FromBase, NewTables;
    if facts == [] {
      NoRowsJoinToNone(joins, names, db);
    } else {
      assert facts[0] in facts && forall f :: f in facts[1..] ==> f in facts;
      JoinedFacts(base, joins, names, db, facts[1..]);
      CompletionOf(base, joins, names, db, facts[0]);
      JoinRowsConcat(joins, names, db, [map[base := facts[0]]], ScanRows(base, facts[1..]));
    }
  }

  // -- the fact-only conditions commute with the joins ------------------------------------------------

  lemma {:induction false} BaseStays(base: TableId, joins: seq<Join>, names: Names, db: Database, ts: seq<Tuple<TableId>>, fact: Row)
    requires Holding(base, fact, ts) && FromBase(base, joins)
    ensures Holding(base, fact, JoinRows(joins, names, db, ts))
    decreases |joins|
  {
    hide JoinAll, JoinsBase;
    if joins != [] {
      var j := joins[0];
      assert j in joins && forall k :: k in joins[1..] ==> k in joins;
      JoinsNew(base, j);
      var on, rows := Holds(j.predicates, names), RowsOf(db, j.right.physical);
      BaseStaysInJoin(base, on, ts, j.right.table, rows, fact);
      BaseStays(base, joins[1..], names, db, JoinAll(on, ts, j.right.table, rows, false), fact);
    }
  }

  lemma {:induction false} BaseStaysInJoin(base: TableId, on: Tuple<TableId> -> bool, ts: seq<Tuple<TableId>>, right: TableId,
                                           rows: seq<Row>, fact: Row)
    requires Holding(base, fact, ts) && right != base
    ensures Holding(base, fact, JoinAll(on, ts, right, rows, false))
  {
    if ts != [] {
      assert ts[0] in ts && forall t :: t in ts[1..] ==> t in ts;
      BaseStaysInJoin(base, on, ts[1..], right, rows, fact);
      MatchingContents(on, ts[0], right, rows);
    }
  }

  /** Keeping the population facts before joining or after it is the same. */
  lemma {:induction false} PopulationFirst(base: TableId, joins: seq<Join>, ps: seq<Predicate>, names: Names, db: Database, rows: seq<Row>)
    requires FromBase(base, joins) && forall c :: c in ColumnsInAll(ps) ==> c.table == base
    ensures Filter(JoinRows(joins, names, db, ScanRows(base, rows)), Holds(ps, names)) ==
            JoinRows(joins, names, db, ScanRows(base, Population(base, ps, names, rows)))
  {
    hide Holds, JoinRows, FromBase, InPopulation, Filter, Population;
    PopulationStep(base, ps, names, rows);
    if rows == [] {
      NoRowsJoinToNone(joins, names, db);
      assert ScanRows(base, rows) == [];
    } else {
      var keep, fact := Holds(ps, names), rows[0];
      PopulationFirst(base, joins, ps, names, db, rows[1..]);
      var one := [map[base := fact]];
      JoinRowsConcat(joins, names, db, one, ScanRows(base, rows[1..]));
      var mine, others := JoinRows(joins, names, db, one), JoinRows(joins, names, db, ScanRows(base, rows[1..]));
      FilterConcat(mine, others, keep);
      JoinsOfOneFact(base, joins, ps, names, db, fact);
      var rest := Population(base, ps, names, rows[1..]);
      ScanOfCons(base, fact, rest);
      assert [] + Filter(others, keep) == Filter(others, keep);
      if InPopulation(base, ps, names)(fact) {
        JoinRowsConcat(joins, names, db, one, ScanRows(base, rest));
      }
    }
  }

  lemma PopulationStep(base: TableId, ps: seq<Predicate>, names: Names, rows: seq<Row>)
    ensures rows == [] ==> Population(base, ps, names, rows) == [] && Filter<Tuple<TableId>>([], Holds(ps, names)) == []
    ensures rows != [] ==>
              var rest := Population(base, ps, names, rows[1..]);
              Population(base, ps, names, rows) == if InPopulation(base, ps, names)(rows[0]) then [rows[0]] + rest else rest
  {
    hide InPopulation;
    if rows != [] {
      var rest := Population(base, ps, names, rows[1..]);
      assert [] + rest == rest;
    }
  }

  /** All joined rows of a fact pass the fact-only conditions, or none does. */
  lemma JoinsOfOneFact(base: TableId, joins: seq<Join>, ps: seq<Predicate>, names: Names, db: Database, fact: Row)
    requires FromBase(base, joins) && forall c :: c in ColumnsInAll(ps) ==> c.table == base
    ensures var mine := JoinRows(joins, names, db, [map[base := fact]]);
            Filter(mine, Holds(ps, names)) == if InPopulation(base, ps, names)(fact) then mine else []
  {
    hide Holds, JoinRows, FromBase, InPopulation;
    var keep, one := Holds(ps, names), [map[base := fact]];
    var mine := JoinRows(joins, names, db, one);
    BaseStays(base, joins, names, db, one, fact);
    forall t | t in mine
      ensures keep(t) == InPopulation(base, ps, names)(fact)
    {
      BaseDecides(base, ps, names, t);
    }
    if InPopulation(base, ps, names)(fact) {
      FilterKeepsAll(mine, keep);
    } else {
      FilterKeepsNone(mine, keep);
    }
  }

  lemma ScanOfCons(base: TableId, fact: Row, rest: seq<Row>)
    ensures ScanRows(base, [fact] + rest) == [map[base := fact]] + ScanRows(base, rest)
  {
    assert ([fact] + rest)[1..] == rest;
  }

  lemma {:induction false} WhereImpliesFactOnly(base: TableId, ps: seq<Predicate>, names: Names, t: Tuple<TableId>)
    ensures DenoteAll(ps, names, t) == Yes ==> DenoteAll(FactOnly(base, ps), names, t) == Yes
  {
    hide Denote, FactSide;
    if ps != [] {
      WhereImpliesFactOnly(base, ps[1..], names, t);
      var rest := FactOnly(base, ps[1..]);
      assert ([ps[0]] + rest)[1..] == rest && [] + rest == rest;
    }
  }

  // -- the filtered rows of an attested plan --------------------------------------------------------------

  /** A fact whose completion passes the plan's conditions. */
  function Passing(plan: LogicalPlan, names: Names, db: Database): Row -> bool {
    f => Holds(plan.where, names)(Completion(plan.base.table, plan.joins, names, db, f))
  }

  /** The facts that the plan's measure should range over, each once. */
  function Counted(plan: LogicalPlan, names: Names, db: Database): seq<Row> {
    Filter(FactsOf(plan, names, db), Passing(plan, names, db))
  }

  function RowValues(name: string, rows: seq<Row>): seq<Value> {
    if rows == [] then []
    else [if name in rows[0] then rows[0][name] else Null] + RowValues(name, rows[1..])
  }

  lemma {:induction false} FilteredCompletions(plan: LogicalPlan, names: Names, db: Database, facts: seq<Row>)
    ensures Filter(Completions(plan.base.table, plan.joins, names, db, facts), Holds(plan.where, names)) ==
            Completions(plan.base.table, plan.joins, names, db, Filter(facts, Passing(plan, names, db)))
  {
    hide Completion, Holds;
    if facts != [] {
      FilteredCompletions(plan, names, db, facts[1..]);
      var all, rest := Completions(plan.base.table, plan.joins, names, db, facts), Filter(facts[1..], Passing(plan, names, db));
      assert all[1..] == Completions(plan.base.table, plan.joins, names, db, facts[1..]);
      assert ([facts[0]] + rest)[1..] == rest && [] + rest == rest;
    }
  }

  lemma {:induction false} ValuesOfCompletions(c: ColumnId, joins: seq<Join>, names: Names, db: Database, facts: seq<Row>)
    requires FromBase(c.table, joins) && NewTables({c.table}, joins)
    requires forall f :: f in facts ==> MatchedOnce(c.table, joins, names, db, f)
    ensures FieldOver(c, Completions(c.table, joins, names, db, facts)) == RowValues(c.name, facts)
  {
    hide Completion, MatchedOnce, FromBase, NewTables;
    if facts != [] {
      assert facts[0] in facts && forall f :: f in facts[1..] ==> f in facts;
      ValuesOfCompletions(c, joins, names, db, facts[1..]);
      CompletionOf(c.table, joins, names, db, facts[0]);
      var ts := Completions(c.table, joins, names, db, facts);
      assert ts[1..] == Completions(c.table, joins, names, db, facts[1..]);
    }
  }

  /** The joined and filtered rows are the completions of the counted facts, each fact once. */
  lemma SourceIsCounted(plan: LogicalPlan, names: Names, db: Database)
    requires FromBase(plan.base.table, plan.joins) && NewTables({plan.base.table}, plan.joins)
    requires forall c :: c in ColumnsInAll(FactOnly(plan.base.table, plan.where)) ==> c.table == plan.base.table
    requires forall f :: f in FactsOf(plan, names, db) ==> MatchedOnce(plan.base.table, plan.joins, names, db, f)
    ensures SourceRows(plan, names, db) == Completions(plan.base.table, plan.joins, names, db, Counted(plan, names, db))
  {
    hide Holds, JoinRows, FromBase, InPopulation, Completion, Passing, NewTables, MatchedOnce;
    var base, facts := plan.base.table, FactsOf(plan, names, db);
    var weak, strong := Holds(FactOnly(base, plan.where), names), Holds(plan.where, names);
    var rows := JoinRows(plan.joins, names, db, ScanRows(base, RowsOf(db, plan.base.physical)));
    forall t | t in rows && strong(t)
      ensures weak(t)
    {
      WhereImpliesFactOnly(base, plan.where, names, t);
      HoldsAll(plan.where, names, t);
      HoldsAll(FactOnly(base, plan.where), names, t);
    }
    FilterAbsorbs(rows, weak, strong);
    PopulationFirst(base, plan.joins, FactOnly(base, plan.where), names, db, RowsOf(db, plan.base.physical));
    JoinedFacts(base, plan.joins, names, db, facts);
    FilteredCompletions(plan, names, db, facts);
  }

  // -- group totals ------------------------------------------------------------------------------------------

  lemma {:induction false} TotalIgnoresNull(vs: seq<Value>)
    ensures Total(NonNull(vs)) == Total(vs)
  {
    if vs != [] {
      TotalIgnoresNull(vs[1..]);
      var rest := NonNull(vs[1..]);
      assert ([vs[0]] + rest)[1..] == rest && [] + rest == rest;
    }
  }

  /** The SUM of a group, a NULL sum counting zero. */
  lemma SumOfGroup(vs: seq<Value>)
    ensures Total([Aggregated(Sum, vs)]) == Total(vs)
  {
    TotalIgnoresNull(vs);
    var s := Aggregated(Sum, vs);
    assert [s][1..] == [];
    assert Total([s]) == (if s.Number? then s.n else 0.0) + Total([]);
    if NonNull(vs) == [] {
      assert Total(NonNull(vs)) == 0.0;
    }
  }

  /** The measure column: the last one. */
  function MeasureColumn(rows: seq<seq<Value>>): seq<Value> {
    if rows == [] then []
    else [if rows[0] == [] then Null else rows[0][|rows[0]| - 1]] + MeasureColumn(rows[1..])
  }

  lemma {:induction false} MeasureColumnConcat(a: seq<seq<Value>>, b: seq<seq<Value>>)
    ensures MeasureColumn(a + b) == MeasureColumn(a) + MeasureColumn(b)
  {
    if a == [] {
      assert a + b == b;
    } else {
      MeasureColumnConcat(a[1..], b);
      var ab := a + b;
      assert ab[1..] == a[1..] + b && ab[0] == a[0];
      var head, x, y := [if a[0] == [] then Null else a[0][|a[0]| - 1]], MeasureColumn(a[1..]), MeasureColumn(b);
      assert MeasureColumn(ab) == head + (x + y) == (head + x) + y;
    }
  }

  lemma {:induction false} MeasureColumnSpreads(rows: seq<seq<Value>>)
    ensures multiset(MeasureColumn(rows)) == Spread(rows, r => multiset{if r == [] then Null else r[|r| - 1]})
  {
    if rows != [] {
      MeasureColumnSpreads(rows[1..]);
      assert MeasureColumn(rows) == [if rows[0] == [] then Null else rows[0][|rows[0]| - 1]] + MeasureColumn(rows[1..]);
    }
  }

  /** The sum of the measure column does not depend on the order of the rows. */
  lemma ArrangedTotal(a: seq<seq<Value>>, b: seq<seq<Value>>)
    requires Arranges(a, b)
    ensures Total(MeasureColumn(a)) == Total(MeasureColumn(b))
  {
    MeasureColumnSpreads(a);
    MeasureColumnSpreads(b);
    SpreadPermutes(a, b, r => multiset{if r == [] then Null else r[|r| - 1]});
    TotalPermutes(MeasureColumn(a), MeasureColumn(b));
  }

  /** However the rows are arranged, what LIMIT delivers and what it cuts add up to a total. */
  predicate AddsUp(limit: Option<nat>, arranged: seq<seq<Value>>, total: real) {
    Total(MeasureColumn(Delivered(limit, arranged))) + Total(MeasureColumn(Cut(limit, arranged))) == total
  }

  lemma DeliveredAndCut(limit: Option<nat>, rows: seq<seq<Value>>)
    ensures forall arranged :: Arranges(arranged, rows) ==> AddsUp(limit, arranged, Total(MeasureColumn(rows)))
  {
    forall arranged | Arranges(arranged, rows)
      ensures AddsUp(limit, arranged, Total(MeasureColumn(rows)))
    {
      var kept, cut := Delivered(limit, arranged), Cut(limit, arranged);
      assert kept + cut == arranged;
      MeasureColumnConcat(kept, cut);
      TotalConcat(MeasureColumn(kept), MeasureColumn(cut));
      ArrangedTotal(arranged, rows);
    }
  }

  function GroupSums(c: ColumnId, ts: seq<Tuple<TableId>>, ks: seq<Key>, groups: seq<Key>): real
    requires |ts| == |ks|
  {
    if groups == [] then 0.0
    else Total(FieldOver(c, Members(ts, ks, groups[0]))) + GroupSums(c, ts, ks, groups[1..])
  }

  lemma {:induction false} NewRowAddsOnce(c: ColumnId, ts: seq<Tuple<TableId>>, ks: seq<Key>, groups: seq<Key>)
    requires ts != [] && |ts| == |ks| && NoDuplicates(groups)
    ensures GroupSums(c, ts, ks, groups)
         == (if ks[0] in groups then Total(FieldOver(c, [ts[0]])) else 0.0) + GroupSums(c, ts[1..], ks[1..], groups)
  {
    if groups != [] {
      assert forall i :: 0 <= i < |groups[1..]| ==> groups[1..][i] == groups[i + 1];
      NewRowAddsOnce(c, ts, ks, groups[1..]);
      var rest := Members(ts[1..], ks[1..], groups[0]);
      MemberTotals(c, ts[0], rest);
      assert [] + rest == rest;
      assert ks[0] in groups <==> ks[0] == groups[0] || ks[0] in groups[1..];
    }
  }

  lemma MemberTotals(c: ColumnId, t: Tuple<TableId>, rest: seq<Tuple<TableId>>)
    ensures Total(FieldOver(c, [t] + rest)) == Total(FieldOver(c, [t])) + Total(FieldOver(c, rest))
  {
    assert ([t] + rest)[1..] == rest && [t][1..] == [];
    var v := Field(t, c.table, c.name);
    assert FieldOver(c, [t]) == [v] + FieldOver(c, []) == [v];
    assert FieldOver(c, [t] + rest) == [v] + FieldOver(c, rest);
    TotalConcat([v], FieldOver(c, rest));
  }

  /** Adding up the totals of groups that cover the rows gives the total of the rows. */
  lemma {:induction false} GroupSumsCover(c: ColumnId, ts: seq<Tuple<TableId>>, ks: seq<Key>, groups: seq<Key>)
    requires |ts| == |ks| && NoDuplicates(groups) && forall k :: k in ks ==> k in groups
    ensures GroupSums(c, ts, ks, groups) == Total(FieldOver(c, ts))
  {
    if ts == [] {
      NoRowsNoSum(c, groups);
    } else {
      assert ks[0] in ks && forall k :: k in ks[1..] ==> k in ks;
      NewRowAddsOnce(c, ts, ks, groups);
      GroupSumsCover(c, ts[1..], ks[1..], groups);
      assert [ts[0]] + ts[1..] == ts;
      MemberTotals(c, ts[0], ts[1..]);
    }
  }

  lemma {:induction false} NoRowsNoSum(c: ColumnId, groups: seq<Key>)
    ensures GroupSums(c, [], [], groups) == 0.0
  {
    if groups != [] {
      NoRowsNoSum(c, groups[1..]);
    }
  }

  predicate SumsOnly(plan: LogicalPlan, c: ColumnId) {
    |plan.measures| == 1 && plan.measures[0].1 == Aggregate(Sum, Some(c)) && plan.having == []
  }

  lemma OneSum(plan: LogicalPlan, engine: Engine, c: ColumnId, ts: seq<Tuple<TableId>>)
    requires SumsOnly(plan, c)
    ensures MeasureValues(plan.measures, engine, ts) == [Aggregated(Sum, FieldOver(c, ts))]
  {
    assert plan.measures[1..] == [];
    assert MeasureValues(plan.measures[1..], engine, ts) == [];
  }

  function GroupTotals(plan: LogicalPlan, c: ColumnId, ts: seq<Tuple<TableId>>, ks: seq<Key>, groups: seq<Key>): real
    requires |ts| == |ks|
  {
    if groups == [] then 0.0
    else Total(FieldOver(c, GroupMembers(Grouped(plan), ts, ks, groups[0]))) + GroupTotals(plan, c, ts, ks, groups[1..])
  }

  lemma {:induction false} ColumnTotal(plan: LogicalPlan, names: Names, engine: Engine, c: ColumnId, ts: seq<Tuple<TableId>>,
                                       ks: seq<Key>, groups: seq<Key>)
    requires SumsOnly(plan, c) && |ts| == |ks|
    ensures Total(MeasureColumn(GroupRows(plan, names, engine, ts, ks, groups))) == GroupTotals(plan, c, ts, ks, groups)
  {
    hide Aggregated;
    if groups != [] {
      ColumnTotal(plan, names, engine, c, ts, ks, groups[1..]);
      var members, rest := GroupMembers(Grouped(plan), ts, ks, groups[0]), GroupRows(plan, names, engine, ts, ks, groups[1..]);
      OneSum(plan, engine, c, members);
      var sum := Aggregated(Sum, FieldOver(c, members));
      var row := groups[0] + [sum];
      assert ([row] + rest)[1..] == rest && row[|row| - 1] == sum;
      assert MeasureColumn([row] + rest) == [sum] + MeasureColumn(rest);
      SumOfGroup(FieldOver(c, members));
      TotalConcat([sum], MeasureColumn(rest));
    }
  }

  lemma {:induction false} GroupTotalsAreSums(plan: LogicalPlan, c: ColumnId, ts: seq<Tuple<TableId>>, ks: seq<Key>, groups: seq<Key>)
    requires |ts| == |ks| && Grouped(plan)
    ensures GroupTotals(plan, c, ts, ks, groups) == GroupSums(c, ts, ks, groups)
  {
    hide Members, Grouped;
    if groups != [] {
      GroupTotalsAreSums(plan, c, ts, ks, groups[1..]);
    }
  }

  /** The group totals add up to the total without groups, whatever the grouping. */
  lemma GroupsAddUp(plan: LogicalPlan, names: Names, engine: Engine, db: Database, c: ColumnId)
    requires SumsOnly(plan, c)
    ensures Total(MeasureColumn(PlanRows(plan, names, engine, db))) == Total(FieldOver(c, SourceRows(plan, names, db)))
  {
    hide Grouped, PlanKey, SourceRows;
    var ts := SourceRows(plan, names, db);
    var ks := KeysOf(ts, PlanKey(plan, engine));
    ColumnTotal(plan, names, engine, c, ts, ks, GroupKeys(Grouped(plan), ks));
    if Grouped(plan) {
      GroupTotalsAreSums(plan, c, ts, ks, FirstSeen(ks));
      GroupSumsCover(c, ts, ks, FirstSeen(ks));
    } else {
      var groups: seq<Key> := [[]];
      assert groups[1..] == [];
      assert GroupTotals(plan, c, ts, ks, groups) == Total(FieldOver(c, ts)) + GroupTotals(plan, c, ts, ks, groups[1..]);
    }
  }

  // -- the theorem -----------------------------------------------------------------------------------------------

  /** The attestation of a join was built, ran and raised no finding. */
  predicate Attested(bundle: Bundle, plan: LogicalPlan, join: Join, scope: Scope, parameters: map<string, Value>,
                     engine: Engine, db: Database)
    requires join.predicates != []
  {
    && Attestable(bundle, plan, join, db)
    && AttestedInOrder(AttestEnv(bundle, plan, scope, parameters), plan, join)
    && var a := AttestationOf(bundle, plan, join, scope, parameters);
       a.Ok? && var run := RunAttestation(engine, a.value, db); run.Ok? && Check(run.value) == None
  }

  /** With every attestation passed, each population fact is matched once by every join. */
  lemma AttestedMatchOnce(bundle: Bundle, plan: LogicalPlan, scope: Scope, parameters: map<string, Value>, engine: Engine, db: Database)
    requires JoinsHavePredicates(plan.joins)
    requires forall j :: j in plan.joins ==> Attested(bundle, plan, j, scope, parameters, engine, db)
    ensures var names := AttestEnv(bundle, plan, scope, parameters).names;
            forall f :: f in FactsOf(plan, names, db) ==> MatchedOnce(plan.base.table, plan.joins, names, db, f)
  {
    hide Attestable, AttestationOf, AttestedInOrder, Matches, Check, FactsOf;
    var names := AttestEnv(bundle, plan, scope, parameters).names;
    forall j, f | j in plan.joins && f in FactsOf(plan, names, db)
      ensures Matches(plan.base.table, j, names, RowsOf(db, j.right.physical), f) == 1
    {
      assert Attested(bundle, plan, j, scope, parameters, engine, db);
      AttestationDecidesExactlyOne(bundle, plan, j, scope, parameters, engine, db);
    }
  }

  lemma ScansAreNew(plan: LogicalPlan)
    requires DistinctScans(Scans(plan))
    ensures NewTables({plan.base.table}, plan.joins)
  {
    DistinctAreNew([plan.base], plan.joins, {plan.base.table});
  }

  /** The rows that reach grouping are the completions of the counted facts and have their values. */
  lemma AttestedSource(bundle: Bundle, plan: LogicalPlan, scope: Scope, parameters: map<string, Value>, engine: Engine, db: Database, c: ColumnId)
    requires JoinsHavePredicates(plan.joins) && DistinctScans(Scans(plan)) && FromBase(plan.base.table, plan.joins)
    requires forall d :: d in ColumnsInAll(FactOnly(plan.base.table, plan.where)) ==> d.table == plan.base.table
    requires c.table == plan.base.table
    requires forall j :: j in plan.joins ==> Attested(bundle, plan, j, scope, parameters, engine, db)
    ensures var names := AttestEnv(bundle, plan, scope, parameters).names;
            var facts := Counted(plan, names, db);
            && SourceRows(plan, names, db) == Completions(plan.base.table, plan.joins, names, db, facts)
            && FieldOver(c, SourceRows(plan, names, db)) == RowValues(c.name, facts)
  {
    hide Attested, SourceRows, FromBase, NewTables, MatchedOnce, Passing, Completions, DistinctScans, FactsOf;
    var names := AttestEnv(bundle, plan, scope, parameters).names;
    AttestedMatchOnce(bundle, plan, scope, parameters, engine, db);
    ScansAreNew(plan);
    SourceIsCounted(plan, names, db);
    ValuesOfCompletions(c, plan.joins, names, db, Counted(plan, names, db));
  }

  /**
    Attestation implies conservation: when all joins are attested from the base and every
    attestation passes, adding up the measure column of the executed query, over all groups,
    gives the sum over the base facts whose unique completion passes the filters, each fact once.
    However ORDER BY arranges the groups, the delivered ones fall short of it by exactly what
    LIMIT cuts.
  */
  lemma AttestedSumsAreConserved(bundle: Bundle, plan: LogicalPlan, scope: Scope, parameters: map<string, Value>,
                                 engine: Engine, db: Database, c: ColumnId)
    requires JoinsHavePredicates(plan.joins) && DistinctScans(Scans(plan)) && FromBase(plan.base.table, plan.joins)
    requires forall d :: d in ColumnsInAll(FactOnly(plan.base.table, plan.where)) ==> d.table == plan.base.table
    requires SumsOnly(plan, c) && c.table == plan.base.table
    requires "p_tenant" in parameters && parameters["p_tenant"] == scope.tenant
    requires var env := EnvOf(bundle, plan, scope, parameters); Named(env) && EmitSelect(env, plan).Ok? && PlanInOrder(env, plan)
    requires forall j :: j in plan.joins ==> Attested(bundle, plan, j, scope, parameters, engine, db)
    ensures var env := EnvOf(bundle, plan, scope, parameters);
            var query := EmitSelect(env, plan).value;
            var facts := Counted(plan, env.names, db);
            && SourceRows(plan, env.names, db) == Completions(plan.base.table, plan.joins, env.names, db, facts)
            && Reparse(query.tree).Ok?
            && var rows, total := EvalSelect(engine, Reparse(query.tree).value, BoundValues(query.bound), db), Total(RowValues(c.name, facts));
            && Total(MeasureColumn(rows)) == total
            && forall arranged :: Arranges(arranged, rows) ==> AddsUp(plan.limit, arranged, total)
  {
    hide Attested, PlanRows, EvalSelect, Reparse, SourceRows, EmitSelect, FromBase, Aliased, PlanInOrder, Completions, Named,
      MeasureColumn, Arranges, AddsUp, RowsRight, NothingRefused, Counted, Total, RowValues, FactOnly, DistinctScans, FieldOver;
    var env := EnvOf(bundle, plan, scope, parameters);
    assert parameters["p_tenant" := scope.tenant] == parameters;
    assert env == AttestEnv(bundle, plan, scope, parameters);
    AttestedSource(bundle, plan, scope, parameters, engine, db, c);
    PlanScansAreAliased(env, plan);
    assert forall m :: m in plan.measures ==> PolicyKept(m.1);
    CompiledQueryMeaning(env, plan, engine, db);
    GroupsAddUp(plan, env.names, engine, db, c);
    var query := EmitSelect(env, plan).value;
    DeliveredAndCut(plan.limit, EvalSelect(engine, Reparse(query.tree).value, BoundValues(query.bound), db));
  }

  // -- without attestation --------------------------------------------------------------------------------------------

  function Amount(name: string, fact: Row): real {
    if name in fact && fact[name].Number? then fact[name].n else 0.0
  }

  function Times(n: nat, x: real): real {
    n as real * x
  }

  /** The sum of the facts, each weighted by the number of rows that match it. */
  function Weighted(base: TableId, join: Join, names: Names, rows: seq<Row>, name: string, facts: seq<Row>): real {
    if facts == [] then 0.0
    else Times(Matches(base, join, names, rows, facts[0]), Amount(name, facts[0])) + Weighted(base, join, names, rows, name, facts[1..])
  }

  lemma OneMore(n: nat, x: real)
    ensures Times(0, x) == 0.0 && Times(n + 1, x) == Times(n, x) + x
  {
  }

  lemma {:induction false} RowsOfOneFact(c: ColumnId, fact: Row, ts: seq<Tuple<TableId>>)
    requires Holding(c.table, fact, ts)
    ensures Total(FieldOver(c, ts)) == Times(|ts|, Amount(c.name, fact))
  {
    hide Amount, Times;
    OneMore(if ts == [] then 0 else |ts| - 1, Amount(c.name, fact));
    if ts == [] {
      assert Total(FieldOver(c, ts)) == 0.0;
    } else {
      hide Total, FieldOver;
      assert ts[0] in ts && forall t :: t in ts[1..] ==> t in ts;
      RowsOfOneFact(c, fact, ts[1..]);
      assert [ts[0]] + ts[1..] == ts;
      MemberTotals(c, ts[0], ts[1..]);
      OneRowTotal(c, ts[0]);
    }
  }

  lemma OneRowTotal(c: ColumnId, t: Tuple<TableId>)
    requires c.table in t
    ensures Total(FieldOver(c, [t])) == Amount(c.name, t[c.table])
  {
    assert [t][1..] == [];
    var v := Field(t, c.table, c.name);
    assert FieldOver(c, [t]) == [v] + FieldOver(c, []) == [v];
    assert [v][1..] == [] && Total([]) == 0.0;
  }

  lemma {:induction false} TotalsConcat(c: ColumnId, a: seq<Tuple<TableId>>, b: seq<Tuple<TableId>>)
    ensures Total(FieldOver(c, a + b)) == Total(FieldOver(c, a)) + Total(FieldOver(c, b))
  {
    if a == [] {
      assert a + b == b;
    } else {
      var ab := a + b;
      assert ab == [a[0]] + (a[1..] + b) && a == [a[0]] + a[1..];
      TotalsConcat(c, a[1..], b);
      MemberTotals(c, a[0], a[1..] + b);
      MemberTotals(c, a[0], a[1..]);
    }
  }

  lemma {:induction false} JoinedTotals(c: ColumnId, join: Join, names: Names, rows: seq<Row>, facts: seq<Row>)
    requires JoinsBase(c.table, join)
    ensures Total(FieldOver(c, JoinAll(Holds(join.predicates, names), ScanRows(c.table, facts), join.right.table, rows, false)))
         == Weighted(c.table, join, names, rows, c.name, facts)
  {
    hide Holds, Matching, Amount, JoinsBase, Weighted, FieldOver, Total, Times;
    var on := Holds(join.predicates, names);
    if facts == [] {
      NothingWeighs(c, join, names, rows);
      assert ScanRows(c.table, facts) == [];
    } else {
      JoinsNew(c.table, join);
      JoinedTotals(c, join, names, rows, facts[1..]);
      var scanned, t := ScanRows(c.table, facts), map[c.table := facts[0]];
      assert scanned[1..] == ScanRows(c.table, facts[1..]) && scanned[0] == t;
      var mine, others := Matching(on, t, join.right.table, rows), JoinAll(on, scanned[1..], join.right.table, rows, false);
      assert JoinAll(on, scanned, join.right.table, rows, false) == mine + others;
      TotalsConcat(c, mine, others);
      MatchingContents(on, t, join.right.table, rows);
      RowsOfOneFact(c, facts[0], mine);
      WeightedStep(c, join, names, rows, facts);
    }
  }

  lemma NothingWeighs(c: ColumnId, join: Join, names: Names, rows: seq<Row>)
    ensures Weighted(c.table, join, names, rows, c.name, []) == 0.0 && Total(FieldOver(c, [])) == 0.0
  {
  }

  lemma WeightedStep(c: ColumnId, join: Join, names: Names, rows: seq<Row>, facts: seq<Row>)
    requires facts != []
    ensures var mine := Matching(Holds(join.predicates, names), map[c.table := facts[0]], join.right.table, rows);
            Weighted(c.table, join, names, rows, c.name, facts) ==
            Times(|mine|, Amount(c.name, facts[0])) + Weighted(c.table, join, names, rows, c.name, facts[1..])
  {
    hide Amount, Matching, Holds, Times;
  }

  /**
    What attestation guards against, exactly: joined once, with conditions on facts alone, the sum
    weighs each fact by the number of rows that match it. An overlap multiplies a fact, a gap drops it.
  */
  lemma UnattestedSumWeighsMatches(plan: LogicalPlan, names: Names, db: Database, c: ColumnId)
    requires |plan.joins| == 1 && JoinsBase(plan.base.table, plan.joins[0]) && c.table == plan.base.table
    requires plan.where == FactOnly(plan.base.table, plan.where)
    requires forall d :: d in ColumnsInAll(plan.where) ==> d.table == plan.base.table
    ensures Total(FieldOver(c, SourceRows(plan, names, db))) ==
            Weighted(c.table, plan.joins[0], names, RowsOf(db, plan.joins[0].right.physical), c.name, FactsOf(plan, names, db))
  {
    hide Holds, JoinsBase, Weighted, FactOnly, Population;
    var join, facts := plan.joins[0], FactsOf(plan, names, db);
    JoinsNew(plan.base.table, join);
    assert forall j :: j in plan.joins ==> j == join;
    PopulationFirst(plan.base.table, plan.joins, plan.where, names, db, RowsOf(db, plan.base.physical));
    var ts := ScanRows(plan.base.table, facts);
    var joined := JoinAll(Holds(join.predicates, names), ts, join.right.table, RowsOf(db, join.right.physical), false);
    assert plan.joins[1..] == [];
    assert JoinRows([], names, db, joined) == joined;
    assert JoinRows(plan.joins, names, db, ts) == JoinRows(plan.joins[1..], names, db, joined);
    JoinedTotals(c, join, names, RowsOf(db, join.right.physical), facts);
  }

  // -- as-of joins -----------------------------------------------------------------------------------------------

  /** Keys that must be equal, and an instant that must fall in a half-open, possibly open-ended interval. */
  datatype AsOf = AsOf(keys: seq<(ColumnId, ColumnId)>, instant: ColumnId, validFrom: ColumnId, validTo: ColumnId)

  function KeyPredicates(keys: seq<(ColumnId, ColumnId)>): seq<JoinPredicate> {
    if keys == [] then [] else [JoinPredicate(On(Eq), keys[0].0, keys[0].1)] + KeyPredicates(keys[1..])
  }

  function AsOfPredicates(a: AsOf): seq<JoinPredicate> {
    KeyPredicates(a.keys) + [JoinPredicate(On(Gte), a.instant, a.validFrom), JoinPredicate(LtOrNull, a.instant, a.validTo)]
  }

  predicate SameKey(keys: seq<(ColumnId, ColumnId)>, t: Tuple<TableId>) {
    forall k :: k in keys ==>
      Field(t, k.0.table, k.0.name) != Null && Field(t, k.0.table, k.0.name) == Field(t, k.1.table, k.1.name)
  }

  predicate Temporal(v: Value) {
    v.Null? || v.Instant?
  }

  /** The half-open validity interval contains the instant; no end means still valid. */
  predicate ValidAt(x: Value, from: Value, to: Value) {
    x.Instant? && from.Instant? && from.t <= x.t && (to.Instant? ==> x.t < to.t)
  }

  lemma {:induction false} KeysLowered(keys: seq<(ColumnId, ColumnId)>, more: seq<JoinPredicate>, names: Names, t: Tuple<TableId>)
    requires LowerJoinPredicates(more).Ok?
    ensures LowerJoinPredicates(KeyPredicates(keys) + more).Ok?
    ensures DenoteAll(LowerJoinPredicates(KeyPredicates(keys) + more).value, names, t) == Yes <==>
              SameKey(keys, t) && DenoteAll(LowerJoinPredicates(more).value, names, t) == Yes
  {
    if keys == [] {
      assert KeyPredicates(keys) + more == more;
    } else {
      var ps := KeyPredicates(keys) + more;
      assert ps[1..] == KeyPredicates(keys[1..]) + more;
      KeysLowered(keys[1..], more, names, t);
      var lowered, rest := LowerJoinPredicates(ps).value, LowerJoinPredicates(ps[1..]).value;
      assert lowered[1..] == rest && lowered[0] == Comparison(Eq, Column(keys[0].0), Column(keys[0].1));
      assert SameKey(keys, t) <==> SameKey([keys[0]], t) && SameKey(keys[1..], t) by {
        assert forall k :: k in keys <==> k == keys[0] || k in keys[1..];
      }
    }
  }

  lemma IntervalLowered(a: AsOf, names: Names, t: Tuple<TableId>)
    requires Temporal(Field(t, a.instant.table, a.instant.name))
    requires Temporal(Field(t, a.validFrom.table, a.validFrom.name)) && Temporal(Field(t, a.validTo.table, a.validTo.name))
    ensures var more := [JoinPredicate(On(Gte), a.instant, a.validFrom), JoinPredicate(LtOrNull, a.instant, a.validTo)];
            LowerJoinPredicates(more).Ok? &&
            (DenoteAll(LowerJoinPredicates(more).value, names, t) == Yes <==>
              ValidAt(Field(t, a.instant.table, a.instant.name), Field(t, a.validFrom.table, a.validFrom.name),
                      Field(t, a.validTo.table, a.validTo.name)))
  {
    var first, second := JoinPredicate(On(Gte), a.instant, a.validFrom), JoinPredicate(LtOrNull, a.instant, a.validTo);
    var starts := Comparison(Gte, Column(a.instant), Column(a.validFrom));
    var before, open := Comparison(Lt, Column(a.instant), Column(a.validTo)), NullTest(false, Column(a.validTo));
    var ends := BoolOp(AnyOf, before, [open]);
    assert [first, second][1..] == [second] && [second][1..] == [];
    var none: seq<Predicate> := [];
    assert LowerJoinPredicate(second) == Ok(ends) && LowerJoinPredicate(first) == Ok(starts);
    assert LowerJoinPredicates([]) == Ok(none) && [ends] + none == [ends];
    assert LowerJoinPredicates([second]) == Ok([ends]);
    assert LowerJoinPredicates([first, second]) == Ok([starts] + [ends]);
    assert ([starts] + [ends])[1..] == [ends] && [ends][1..] == [] && [open][1..] == [];
    assert DenoteAny([open], names, t) == Or3(Denote(open, names, t), DenoteAny([], names, t));
    assert DenoteAll([ends], names, t) == And3(Denote(ends, names, t), DenoteAll([], names, t));
    assert DenoteAll([starts] + [ends], names, t) == And3(Denote(starts, names, t), DenoteAll([ends], names, t));
    var x, from, to := Field(t, a.instant.table, a.instant.name), Field(t, a.validFrom.table, a.validFrom.name),
      Field(t, a.validTo.table, a.validTo.name);
    assert Denote(starts, names, t) == Compare(Gte, x, from);
    assert Denote(ends, names, t) == Or3(Denote(before, names, t), DenoteAny([open], names, t));
    assert Denote(before, names, t) == Compare(Lt, x, to) && Denote(open, names, t) == NullTruth(to);
  }

  /** A lowered as-of join matches a version exactly when the keys agree and it is valid at the instant. */
  lemma AsOfMatches(a: AsOf, names: Names, t: Tuple<TableId>)
    requires Temporal(Field(t, a.instant.table, a.instant.name))
    requires Temporal(Field(t, a.validFrom.table, a.validFrom.name)) && Temporal(Field(t, a.validTo.table, a.validTo.name))
    ensures LowerJoinPredicates(AsOfPredicates(a)).Ok?
    ensures Holds(LowerJoinPredicates(AsOfPredicates(a)).value, names)(t) <==>
              && SameKey(a.keys, t)
              && ValidAt(Field(t, a.instant.table, a.instant.name), Field(t, a.validFrom.table, a.validFrom.name),
                         Field(t, a.validTo.table, a.validTo.name))
  {
    hide DenoteAll, LowerJoinPredicates, ValidAt, SameKey;
    IntervalLowered(a, names, t);
    KeysLowered(a.keys, [JoinPredicate(On(Gte), a.instant, a.validFrom), JoinPredicate(LtOrNull, a.instant, a.validTo)], names, t);
    HoldsAll(LowerJoinPredicates(AsOfPredicates(a)).value, names, t);
  }

  /** The version is the fact's own at its instant. */
  predicate VersionOf(a: AsOf, base: TableId, right: TableId, fact: Row, version: Row) {
    var t := map[base := fact][right := version];
    && SameKey(a.keys, t)
    && ValidAt(Field(t, a.instant.table, a.instant.name), Field(t, a.validFrom.table, a.validFrom.name),
               Field(t, a.validTo.table, a.validTo.name))
  }

  function VersionsOf(a: AsOf, base: TableId, right: TableId, fact: Row): Row -> bool {
    v => VersionOf(a, base, right, fact, v)
  }

  /** The interval columns hold instants or NULL. */
  predicate TemporalData(a: AsOf, base: TableId, right: TableId, facts: seq<Row>, rows: seq<Row>) {
    forall f, v :: f in facts && v in rows ==>
      var t := map[base := f][right := v];
      && Temporal(Field(t, a.instant.table, a.instant.name)) && Temporal(Field(t, a.validFrom.table, a.validFrom.name))
      && Temporal(Field(t, a.validTo.table, a.validTo.name))
  }

  lemma {:induction false} MatchesAreVersions(a: AsOf, base: TableId, join: Join, names: Names, facts: seq<Row>, fact: Row, rows: seq<Row>)
    requires LowerJoinPredicates(AsOfPredicates(a)) == Ok(join.predicates)
    requires fact in facts && TemporalData(a, base, join.right.table, facts, rows)
    ensures Matches(base, join, names, rows, fact) == |Filter(rows, VersionsOf(a, base, join.right.table, fact))|
  {
    hide Holds, SameKey, ValidAt, Temporal, LowerJoinPredicates;
    if rows != [] {
      assert rows[0] in rows && forall v :: v in rows[1..] ==> v in rows;
      MatchesAreVersions(a, base, join, names, facts, fact, rows[1..]);
      AsOfMatches(a, names, map[base := fact][join.right.table := rows[0]]);
    }
  }

  /**
    For an as-of join the attestation passes exactly when every population fact's instant lies
    in the validity interval of exactly one version of its key.
  */
  lemma AsOfAttestation(a: AsOf, bundle: Bundle, plan: LogicalPlan, join: Join, scope: Scope, parameters: map<string, Value>,
                        engine: Engine, db: Database)
    requires Attestable(bundle, plan, join, db) && LowerJoinPredicates(AsOfPredicates(a)) == Ok(join.predicates)
    requires AttestationOf(bundle, plan, join, scope, parameters).Ok?
    requires AttestedInOrder(AttestEnv(bundle, plan, scope, parameters), plan, join)
    requires TemporalData(a, plan.base.table, join.right.table, RowsOf(db, plan.base.physical), RowsOf(db, join.right.physical))
    ensures var run := RunAttestation(engine, AttestationOf(bundle, plan, join, scope, parameters).value, db);
            var names := AttestEnv(bundle, plan, scope, parameters).names;
            run.Ok? && (Check(run.value) == None <==>
              forall f :: f in FactsOf(plan, names, db) ==>
                |Filter(RowsOf(db, join.right.physical), VersionsOf(a, plan.base.table, join.right.table, f))| == 1)
  {
    hide Attestable, AttestationOf, AttestedInOrder, Matches, Check, TemporalData, VersionsOf, LowerJoinPredicates;
    AttestationDecidesExactlyOne(bundle, plan, join, scope, parameters, engine, db);
    var names := AttestEnv(bundle, plan, scope, parameters).names;
    forall f | f in FactsOf(plan, names, db)
      ensures Matches(plan.base.table, join, names, RowsOf(db, join.right.physical), f)
           == |Filter(RowsOf(db, join.right.physical), VersionsOf(a, plan.base.table, join.right.table, f))|
    {
      MatchesAreVersions(a, plan.base.table, join, names, RowsOf(db, plan.base.physical), f, RowsOf(db, join.right.physical));
    }
  }
}
