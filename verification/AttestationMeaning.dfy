/**
  What an attestation decides: when the base grain is a key and the probe is never NULL, its
  totals count exactly the population facts with several and with no matching rows.
*/
module AttestationMeaning {
  import opened Errors
  import opened Values
  import opened Expressions
  import opened Catalog
  import opened SqlTree
  import opened Plans
  import opened Relational
  import opened SqlQuery
  import opened PlanMeaning
  import opened Emissions
  import opened CompilerMeaning
  import opened QueryMeaning
  import opened Lowering
  import opened FanOut
  import opened Attestations

  // -- the facts and their matches -----------------------------------------------------------------

  /** The base rows that meet conditions on the base table. */
  function Population(base: TableId, ps: seq<Predicate>, names: Names, rows: seq<Row>): seq<Row> {
    Filter(rows, InPopulation(base, ps, names))
  }

  function InPopulation(base: TableId, ps: seq<Predicate>, names: Names): Row -> bool {
    f => Holds(ps, names)(map[base := f])
  }

  /** How many rows of the joined table match a fact. */
  function Matches(base: TableId, join: Join, names: Names, rows: seq<Row>, fact: Row): nat {
    |Matching(Holds(join.predicates, names), map[base := fact], join.right.table, rows)|
  }

  function FactKey(grain: seq<ColumnId>, fact: Row): (k: Key)
    ensures |k| == |grain|
  {
    if grain == [] then []
    else [if grain[0].name in fact then fact[grain[0].name] else Null] + FactKey(grain[1..], fact)
  }

  function FactKeys(grain: seq<ColumnId>, facts: seq<Row>): (ks: seq<Key>)
    ensures |ks| == |facts| && forall i :: 0 <= i < |facts| ==> ks[i] == FactKey(grain, facts[i])
  {
    if facts == [] then [] else [FactKey(grain, facts[0])] + FactKeys(grain, facts[1..])
  }

  /** The row the diagnostic query yields for each fact. */
  function FactRows(base: TableId, grain: seq<ColumnId>, join: Join, names: Names, rows: seq<Row>, facts: seq<Row>)
    : (out: seq<seq<Value>>)
    ensures |out| == |facts|
  {
    if facts == [] then []
    else [FactKey(grain, facts[0]) + [Number(Matches(base, join, names, rows, facts[0]) as real)]]
         + FactRows(base, grain, join, names, rows, facts[1..])
  }

  /** No two facts have the same grain. */
  predicate UniqueGrain(grain: seq<ColumnId>, facts: seq<Row>) {
    grain != [] && forall i, j :: 0 <= i < j < |facts| ==> FactKey(grain, facts[i]) != FactKey(grain, facts[j])
  }

  predicate NeverNull(name: string, rows: seq<Row>) {
    forall r :: r in rows ==> name in r && r[name] != Null
  }

  /** What the diagnostic query joins, groups and filters by concerns its two tables only. */
  predicate FactsOnly(base: TableId, grain: seq<ColumnId>, ps: seq<Predicate>) {
    && (forall c :: c in grain ==> c.table == base)
    && (forall c :: c in ColumnsInAll(ps) ==> c.table == base)
  }

  // -- the joined rows, fact by fact -----------------------------------------------------------------

  function Block(base: TableId, join: Join, names: Names, rows: seq<Row>, fact: Row): seq<Tuple<TableId>> {
    JoinOne(Holds(join.predicates, names), map[base := fact], join.right.table, rows, true)
  }

  function Blocks(base: TableId, join: Join, names: Names, rows: seq<Row>, facts: seq<Row>): seq<Tuple<TableId>> {
    if facts == [] then []
    else Block(base, join, names, rows, facts[0]) + Blocks(base, join, names, rows, facts[1..])
  }

  /** Every row of a fact's block holds the fact. */
  predicate Holding(base: TableId, fact: Row, ts: seq<Tuple<TableId>>) {
    forall t :: t in ts ==> base in t && t[base] == fact
  }

  lemma BlockHoldsItsFact(base: TableId, join: Join, names: Names, rows: seq<Row>, fact: Row)
    requires join.right.table != base
    ensures Block(base, join, names, rows, fact) != [] && Holding(base, fact, Block(base, join, names, rows, fact))
  {
    MatchingContents(Holds(join.predicates, names), map[base := fact], join.right.table, rows);
  }

  lemma {:induction false} FilterKeepsAll<T(!new)>(ts: seq<T>, keep: T -> bool)
    requires forall t :: t in ts ==> keep(t)
    ensures Filter(ts, keep) == ts
  {
    if ts != [] {
      assert forall t :: t in ts[1..] ==> t in ts;
      FilterKeepsAll(ts[1..], keep);
    }
  }

  lemma {:induction false} FilterKeepsNone<T(!new)>(ts: seq<T>, keep: T -> bool)
    requires forall t :: t in ts ==> !keep(t)
    ensures Filter(ts, keep) == []
  {
    if ts != [] {
      assert forall t :: t in ts[1..] ==> t in ts;
      FilterKeepsNone(ts[1..], keep);
    }
  }

  /** Conditions on the base table hold of a joined row exactly when they hold of its fact. */
  lemma BaseDecides(base: TableId, ps: seq<Predicate>, names: Names, t: Tuple<TableId>)
    requires base in t && forall c :: c in ColumnsInAll(ps) ==> c.table == base
    ensures Holds(ps, names)(t) == InPopulation(base, ps, names)(t[base])
  {
    ListReadsOnlyItsColumns(ps, names, t, map[base := t[base]]);
  }

  lemma BlockFiltered(base: TableId, join: Join, ps: seq<Predicate>, names: Names, rows: seq<Row>, fact: Row)
    requires join.right.table != base && forall c :: c in ColumnsInAll(ps) ==> c.table == base
    ensures Filter(Block(base, join, names, rows, fact), Holds(ps, names))
         == if InPopulation(base, ps, names)(fact) then Block(base, join, names, rows, fact) else []
  {
    var block := Block(base, join, names, rows, fact);
    BlockHoldsItsFact(base, join, names, rows, fact);
    forall t | t in block
      ensures Holds(ps, names)(t) == InPopulation(base, ps, names)(fact)
    {
      BaseDecides(base, ps, names, t);
    }
    if InPopulation(base, ps, names)(fact) {
      FilterKeepsAll(block, Holds(ps, names));
    } else {
      FilterKeepsNone(block, Holds(ps, names));
    }
  }

  lemma {:induction false} PopulationBlocks(base: TableId, join: Join, ps: seq<Predicate>, names: Names, rows: seq<Row>, facts: seq<Row>)
    requires join.right.table != base && forall c :: c in ColumnsInAll(ps) ==> c.table == base
    ensures Filter(JoinAll(Holds(join.predicates, names), ScanRows(base, facts), join.right.table, rows, true), Holds(ps, names))
         == Blocks(base, join, names, rows, Population(base, ps, names, facts))
  {
    hide Holds, JoinOne, InPopulation;
    if facts != [] {
      var on, fact := Holds(join.predicates, names), facts[0];
      var head, tail := Block(base, join, names, rows, fact),
        JoinAll(on, ScanRows(base, facts[1..]), join.right.table, rows, true);
      var scanned := ScanRows(base, facts);
      assert scanned[0] == map[base := fact] && scanned[1..] == ScanRows(base, facts[1..]);
      assert JoinAll(on, scanned, join.right.table, rows, true) == head + tail;
      PopulationBlocks(base, join, ps, names, rows, facts[1..]);
      FilterConcat(head, tail, Holds(ps, names));
      BlockFiltered(base, join, ps, names, rows, fact);
      var rest := Population(base, ps, names, facts[1..]);
      assert ([fact] + rest)[1..] == rest && [] + rest == rest;
    }
  }

  // -- grouping the blocks by grain ---------------------------------------------------------------------

  lemma {:induction false} KeyOfBlockRow(base: TableId, grain: seq<ColumnId>, t: Tuple<TableId>)
    requires base in t && forall c :: c in grain ==> c.table == base
    ensures DimensionKey(Keyed(grain), t) == FactKey(grain, t[base])
  {
    if grain != [] {
      assert grain[0] in grain && forall c :: c in grain[1..] ==> c in grain;
      KeyOfBlockRow(base, grain[1..], t);
      assert Keyed(grain)[1..] == Keyed(grain[1..]);
    }
  }

  lemma {:induction false} MembersConcat<T>(a: seq<T>, b: seq<T>, ka: seq<Key>, kb: seq<Key>, k: Key)
    requires |a| == |ka| && |b| == |kb|
    ensures Members(a + b, ka + kb, k) == Members(a, ka, k) + Members(b, kb, k)
  {
    if a == [] {
      assert a + b == b && ka + kb == kb;
    } else {
      var ab, kab := a + b, ka + kb;
      assert ab[1..] == a[1..] + b && kab[1..] == ka[1..] + kb && ab[0] == a[0] && kab[0] == ka[0];
      MembersConcat(a[1..], b, ka[1..], kb, k);
      var head, x, y := if ka[0] == k then [a[0]] else [], Members(a[1..], ka[1..], k), Members(b, kb, k);
      assert Members(ab, kab, k) == head + (x + y) == (head + x) + y;
    }
  }

  lemma {:induction false} MembersOfOneKey<T>(ts: seq<T>, ks: seq<Key>, k: Key)
    requires |ts| == |ks|
    ensures (forall x :: x in ks ==> x == k) ==> Members(ts, ks, k) == ts
    ensures k !in ks ==> Members(ts, ks, k) == []
  {
    if ts != [] {
      assert ks[0] in ks && forall x :: x in ks[1..] ==> x in ks;
      MembersOfOneKey(ts[1..], ks[1..], k);
    }
  }

  lemma {:induction false} KeysConcat<T>(a: seq<T>, b: seq<T>, keyOf: T -> Key)
    ensures KeysOf(a + b, keyOf) == KeysOf(a, keyOf) + KeysOf(b, keyOf)
  {
    if a == [] {
      assert a + b == b;
    } else {
      var ab := a + b;
      assert ab[1..] == a[1..] + b && ab[0] == a[0];
      KeysConcat(a[1..], b, keyOf);
      assert KeysOf(ab, keyOf) == [keyOf(ab[0])] + KeysOf(ab[1..], keyOf);
    }
  }

  /** A run of one new key adds that key to the distinct keys. */
  lemma {:induction false} FirstSeenRun(ks: seq<Key>, run: seq<Key>, k: Key)
    requires run != [] && k !in ks && forall x :: x in run ==> x == k
    ensures FirstSeen(ks + run) == FirstSeen(ks) + [k]
  {
    var n := |run| - 1;
    var all := ks + run;
    assert run[n] in run && all[|all| - 1] == k;
    if n == 0 {
      assert all[..|all| - 1] == ks;
    } else {
      assert all[..|all| - 1] == ks + run[..n];
      assert forall x :: x in run[..n] ==> x in run;
      FirstSeenRun(ks, run[..n], k);
    }
  }

  lemma {:induction false} BlocksConcat(base: TableId, join: Join, names: Names, rows: seq<Row>, a: seq<Row>, b: seq<Row>)
    ensures Blocks(base, join, names, rows, a + b) == Blocks(base, join, names, rows, a) + Blocks(base, join, names, rows, b)
  {
    hide JoinOne;
    if a == [] {
      assert a + b == b;
    } else {
      BlocksConcat(base, join, names, rows, a[1..], b);
      var ab := a + b;
      assert ab[1..] == a[1..] + b && ab[0] == a[0];
      var x, y, z := Block(base, join, names, rows, a[0]), Blocks(base, join, names, rows, a[1..]), Blocks(base, join, names, rows, b);
      assert x + (y + z) == (x + y) + z;
    }
  }

  lemma BlockKeys(plan: LogicalPlan, engine: Engine, base: TableId, grain: seq<ColumnId>, join: Join, names: Names,
                  rows: seq<Row>, fact: Row)
    requires plan.timeBucket.None? && plan.groupBy == Keyed(grain)
    requires join.right.table != base && forall c :: c in grain ==> c.table == base
    ensures var ks := KeysOf(Block(base, join, names, rows, fact), PlanKey(plan, engine));
            ks != [] && forall k :: k in ks ==> k == FactKey(grain, fact)
  {
    hide DimensionKey, JoinOne;
    var block := Block(base, join, names, rows, fact);
    BlockHoldsItsFact(base, join, names, rows, fact);
    forall t | t in block
      ensures PlanKey(plan, engine)(t) == FactKey(grain, fact)
    {
      KeyOfBlockRow(base, grain, t);
      assert [] + DimensionKey(plan.groupBy, t) == DimensionKey(plan.groupBy, t);
    }
    var ks := KeysOf(block, PlanKey(plan, engine));
    forall k | k in ks
      ensures k == FactKey(grain, fact)
    {
      var i :| 0 <= i < |ks| && ks[i] == k;
      assert block[i] in block;
    }
  }

  lemma {:induction false} BlocksKeys(plan: LogicalPlan, engine: Engine, base: TableId, grain: seq<ColumnId>, join: Join,
                                      names: Names, rows: seq<Row>, facts: seq<Row>)
    requires plan.timeBucket.None? && plan.groupBy == Keyed(grain)
    requires join.right.table != base && forall c :: c in grain ==> c.table == base
    ensures forall k :: k in KeysOf(Blocks(base, join, names, rows, facts), PlanKey(plan, engine)) ==>
              k in FactKeys(grain, facts)
  {
    hide Block, PlanKey;
    if facts != [] {
      BlocksKeys(plan, engine, base, grain, join, names, rows, facts[1..]);
      BlockKeys(plan, engine, base, grain, join, names, rows, facts[0]);
      KeysConcat(Block(base, join, names, rows, facts[0]), Blocks(base, join, names, rows, facts[1..]), PlanKey(plan, engine));
    }
  }

  /** With a unique grain, the distinct keys are the facts' keys. */
  lemma {:induction false} OneGroupPerFact(plan: LogicalPlan, engine: Engine, base: TableId, grain: seq<ColumnId>, join: Join,
                                           names: Names, rows: seq<Row>, facts: seq<Row>)
    requires plan.timeBucket.None? && plan.groupBy == Keyed(grain)
    requires join.right.table != base && (forall c :: c in grain ==> c.table == base) && UniqueGrain(grain, facts)
    ensures FirstSeen(KeysOf(Blocks(base, join, names, rows, facts), PlanKey(plan, engine))) == FactKeys(grain, facts)
  {
    hide Block, PlanKey, Blocks, FirstSeen;
    if facts == [] {
      NoBlocks(plan, engine, base, join, names, rows);
    } else {
      var n := |facts| - 1;
      var before, last := facts[..n], facts[n];
      assert facts == before + [last];
      OneGroupPerFact(plan, engine, base, grain, join, names, rows, before);
      BlocksConcat(base, join, names, rows, before, [last]);
      OneBlock(base, join, names, rows, last);
      BlockKeys(plan, engine, base, grain, join, names, rows, last);
      BlocksKeys(plan, engine, base, grain, join, names, rows, before);
      var keyOf, block := PlanKey(plan, engine), Block(base, join, names, rows, last);
      KeysConcat(Blocks(base, join, names, rows, before), block, keyOf);
      forall k | k in FactKeys(grain, before)
        ensures k != FactKey(grain, last)
      {
        var i :| 0 <= i < n && FactKeys(grain, before)[i] == k;
        assert before[i] == facts[i];
      }
      FirstSeenRun(KeysOf(Blocks(base, join, names, rows, before), keyOf), KeysOf(block, keyOf), FactKey(grain, last));
      assert FactKeys(grain, facts) == FactKeys(grain, before) + [FactKey(grain, last)];
    }
  }

  lemma NoBlocks(plan: LogicalPlan, engine: Engine, base: TableId, join: Join, names: Names, rows: seq<Row>)
    ensures Blocks(base, join, names, rows, []) == [] && FirstSeen(KeysOf([], PlanKey(plan, engine))) == []
  {
  }

  lemma OneBlock(base: TableId, join: Join, names: Names, rows: seq<Row>, fact: Row)
    ensures Blocks(base, join, names, rows, [fact]) == Block(base, join, names, rows, fact)
  {
    assert [fact][1..] == [];
    assert Blocks(base, join, names, rows, []) == [];
  }

  /** The group of a fact is its block. */
  lemma GroupOfFact(plan: LogicalPlan, engine: Engine, base: TableId, grain: seq<ColumnId>, join: Join, names: Names,
                    rows: seq<Row>, facts: seq<Row>, i: nat)
    requires plan.timeBucket.None? && plan.groupBy == Keyed(grain)
    requires join.right.table != base && (forall c :: c in grain ==> c.table == base) && UniqueGrain(grain, facts)
    requires i < |facts|
    ensures var ts := Blocks(base, join, names, rows, facts);
            Members(ts, KeysOf(ts, PlanKey(plan, engine)), FactKey(grain, facts[i])) == Block(base, join, names, rows, facts[i])
  {
    hide Block, PlanKey, Blocks;
    var keyOf, key := PlanKey(plan, engine), FactKey(grain, facts[i]);
    var before, after := facts[..i], facts[i + 1..];
    assert facts == (before + [facts[i]]) + after;
    BlocksConcat(base, join, names, rows, before + [facts[i]], after);
    BlocksConcat(base, join, names, rows, before, [facts[i]]);
    OneBlock(base, join, names, rows, facts[i]);
    var x, y, z := Blocks(base, join, names, rows, before), Block(base, join, names, rows, facts[i]), Blocks(base, join, names, rows, after);
    KeysConcat(x + y, z, keyOf);
    KeysConcat(x, y, keyOf);
    MembersConcat(x + y, z, KeysOf(x + y, keyOf), KeysOf(z, keyOf), key);
    MembersConcat(x, y, KeysOf(x, keyOf), KeysOf(y, keyOf), key);
    BlockKeys(plan, engine, base, grain, join, names, rows, facts[i]);
    BlocksKeys(plan, engine, base, grain, join, names, rows, before);
    BlocksKeys(plan, engine, base, grain, join, names, rows, after);
    assert key !in FactKeys(grain, before) && key !in FactKeys(grain, after) by {
      assert forall n :: 0 <= n < i ==> before[n] == facts[n];
      assert forall n :: 0 <= n < |after| ==> after[n] == facts[i + 1 + n];
    }
    MembersOfOneKey(x, KeysOf(x, keyOf), key);
    MembersOfOneKey(y, KeysOf(y, keyOf), key);
    MembersOfOneKey(z, KeysOf(z, keyOf), key);
  }

  // -- counting the probe --------------------------------------------------------------------------------

  lemma {:induction false} ProbesCount(c: ColumnId, on: Tuple<TableId> -> bool, t: Tuple<TableId>, rows: seq<Row>)
    requires NeverNull(c.name, rows)
    ensures |NonNull(FieldOver(c, Matching(on, t, c.table, rows)))| == |Matching(on, t, c.table, rows)|
  {
    if rows != [] {
      assert rows[0] in rows && forall r :: r in rows[1..] ==> r in rows;
      ProbesCount(c, on, t, rows[1..]);
      var rest := Matching(on, t, c.table, rows[1..]);
      if on(t[c.table := rows[0]]) {
        assert ([t[c.table := rows[0]]] + rest)[1..] == rest;
        var vs := FieldOver(c, Matching(on, t, c.table, rows));
        assert vs[0] != Null && vs[1..] == FieldOver(c, rest);
      } else {
        assert [] + rest == rest;
      }
    }
  }

  /** COUNT over the probe reads zero for a fact that its LEFT JOIN left unmatched. */
  lemma BlockCount(base: TableId, join: Join, names: Names, rows: seq<Row>, fact: Row, probe: ColumnId)
    requires probe.table == join.right.table && NeverNull(probe.name, rows)
    ensures Aggregated(Count, FieldOver(probe, Block(base, join, names, rows, fact)))
         == Number(Matches(base, join, names, rows, fact) as real)
  {
    var on, t := Holds(join.predicates, names), map[base := fact];
    ProbesCount(probe, on, t, rows);
    var ms := Matching(on, t, join.right.table, rows);
    if ms == [] {
      var padded := [t[join.right.table := map[]]];
      assert padded[1..] == [];
      assert FieldOver(probe, padded) == [Null];
      assert NonNull([Null]) == [];
    }
  }

  // -- the diagnostic query's rows ---------------------------------------------------------------------------

  lemma {:induction false} GroupsAreFacts(plan: LogicalPlan, engine: Engine, base: TableId, grain: seq<ColumnId>, join: Join,
                                          probe: ColumnId, names: Names, rows: seq<Row>, facts: seq<Row>, i: nat)
    requires plan.timeBucket.None? && plan.groupBy == Keyed(grain) && plan.having == [] && Grouped(plan)
    requires plan.measures == [("match_count", Aggregate(Count, Some(probe)))]
    requires join.right.table != base && (forall c :: c in grain ==> c.table == base) && UniqueGrain(grain, facts)
    requires probe.table == join.right.table && NeverNull(probe.name, rows)
    requires i <= |facts|
    ensures var ts := Blocks(base, join, names, rows, facts);
            GroupRows(plan, names, engine, ts, KeysOf(ts, PlanKey(plan, engine)), FactKeys(grain, facts[i..])) ==
            FactRows(base, grain, join, names, rows, facts[i..])
    decreases |facts| - i
  {
    hide Block, PlanKey, Blocks, UniqueGrain, Members, Matches, FactKey, Grouped, Aggregated, NeverNull;
    var ts := Blocks(base, join, names, rows, facts);
    var ks := KeysOf(ts, PlanKey(plan, engine));
    if i < |facts| {
      assert facts[i..][1..] == facts[i + 1..];
      GroupsAreFacts(plan, engine, base, grain, join, probe, names, rows, facts, i + 1);
      GroupOfFact(plan, engine, base, grain, join, names, rows, facts, i);
      var key, block := FactKey(grain, facts[i]), Block(base, join, names, rows, facts[i]);
      assert GroupMembers(Grouped(plan), ts, ks, key) == block;
      BlockCount(base, join, names, rows, facts[i], probe);
      OneMeasure(plan, engine, probe, block);
      assert FactKeys(grain, facts[i..])[0] == key;
      assert FactKeys(grain, facts[i..])[1..] == FactKeys(grain, facts[i + 1..]);
    }
  }

  lemma OneMeasure(plan: LogicalPlan, engine: Engine, probe: ColumnId, ts: seq<Tuple<TableId>>)
    requires plan.measures == [("match_count", Aggregate(Count, Some(probe)))]
    ensures MeasureValues(plan.measures, engine, ts) == [Aggregated(Count, FieldOver(probe, ts))]
  {
    assert plan.measures[1..] == [];
    assert MeasureValues(plan.measures[1..], engine, ts) == [];
  }

  lemma {:induction false} GrainGroups(grain: seq<ColumnId>)
    ensures HasDimension(Keyed(grain)) <==> grain != []
  {
  }

  lemma DiagnosticSource(plan: LogicalPlan, join: Join, grain: seq<ColumnId>, probe: ColumnId, names: Names, db: Database)
    ensures var d := Diagnostic(plan, join, grain, probe);
            SourceRows(d, names, db) ==
            Filter(JoinAll(Holds(join.predicates, names), ScanRows(plan.base.table, RowsOf(db, plan.base.physical)),
                           join.right.table, RowsOf(db, join.right.physical), true), Holds(d.where, names))
  {
    var d := Diagnostic(plan, join, grain, probe);
    var ts := ScanRows(plan.base.table, RowsOf(db, plan.base.physical));
    var joined := JoinAll(Holds(join.predicates, names), ts, join.right.table, RowsOf(db, join.right.physical), true);
    assert d.joins[1..] == [];
    assert JoinRows([], names, db, joined) == joined;
    assert JoinRows(d.joins, names, db, ts) == JoinRows(d.joins[1..], names, db, joined);
  }

  /** The diagnostic query yields one row per population fact, with the number of rows that match it. */
  lemma DiagnosticRows(plan: LogicalPlan, join: Join, grain: seq<ColumnId>, probe: ColumnId, names: Names, engine: Engine, db: Database)
    requires join.right.table != plan.base.table && probe.table == join.right.table
    requires FactsOnly(plan.base.table, grain, FactOnly(plan.base.table, plan.where))
    requires NeverNull(probe.name, RowsOf(db, join.right.physical))
    requires UniqueGrain(grain, RowsOf(db, plan.base.physical))
    ensures var facts := Population(plan.base.table, FactOnly(plan.base.table, plan.where), names, RowsOf(db, plan.base.physical));
            PlanRows(Diagnostic(plan, join, grain, probe), names, engine, db) ==
            FactRows(plan.base.table, grain, join, names, RowsOf(db, join.right.physical), facts)
  {
    hide Block, PlanKey, Blocks, Members, Matches, FactKey, Aggregated, NeverNull, FirstSeen, GroupRows;
    var d := Diagnostic(plan, join, grain, probe);
    var base, rows := plan.base.table, RowsOf(db, join.right.physical);
    var facts := Population(base, d.where, names, RowsOf(db, plan.base.physical));
    PopulationBlocks(base, join, d.where, names, rows, RowsOf(db, plan.base.physical));
    assert d.joins[1..] == [];
    var ts := Blocks(base, join, names, rows, facts);
    DiagnosticSource(plan, join, grain, probe, names, db);
    PopulationIsUnique(base, d.where, names, grain, RowsOf(db, plan.base.physical));
    OneGroupPerFact(d, engine, base, grain, join, names, rows, facts);
    GrainGroups(grain);
    assert facts[0..] == facts;
    GroupsAreFacts(d, engine, base, grain, join, probe, names, rows, facts, 0);
  }

  lemma {:induction false} PopulationIsUnique(base: TableId, ps: seq<Predicate>, names: Names, grain: seq<ColumnId>, rows: seq<Row>)
    requires UniqueGrain(grain, rows)
    ensures UniqueGrain(grain, Population(base, ps, names, rows))
  {
    hide FactKey;
    if rows != [] {
      assert forall i :: 0 <= i < |rows[1..]| ==> rows[1..][i] == rows[i + 1];
      PopulationIsUnique(base, ps, names, grain, rows[1..]);
      var rest := Population(base, ps, names, rows[1..]);
      forall j | 0 <= j < |rest|
        ensures FactKey(grain, rows[0]) != FactKey(grain, rest[j])
      {
        assert rest[j] in rows[1..];
        var n :| 0 <= n < |rows[1..]| && rows[1..][n] == rest[j];
        assert rows[n + 1] == rest[j];
      }
    }
  }

  // -- the totals ----------------------------------------------------------------------------------------------

  function Overlapping(base: TableId, join: Join, names: Names, rows: seq<Row>): Row -> bool {
    f => Matches(base, join, names, rows, f) > 1
  }

  function Unmatched(base: TableId, join: Join, names: Names, rows: seq<Row>): Row -> bool {
    f => Matches(base, join, names, rows, f) == 0
  }

  lemma {:induction false} FlagsCount(base: TableId, grain: seq<ColumnId>, join: Join, names: Names, rows: seq<Row>, facts: seq<Row>)
    ensures var out := FactRows(base, grain, join, names, rows, facts);
            && Total(NonNull(Flags(out, Gt, 1.0))) == |Filter(facts, Overlapping(base, join, names, rows))| as real
            && Total(NonNull(Flags(out, Eq, 0.0))) == |Filter(facts, Unmatched(base, join, names, rows))| as real
  {
    hide Matches, FactKey;
    if facts != [] {
      FlagsCount(base, grain, join, names, rows, facts[1..]);
      var out, rest := FactRows(base, grain, join, names, rows, facts), FactRows(base, grain, join, names, rows, facts[1..]);
      assert out[1..] == rest;
      var n := Matches(base, join, names, rows, facts[0]);
      assert MatchCount(out[0]) == Number(n as real);
      FlagStep(out, Gt, 1.0);
      FlagStep(out, Eq, 0.0);
    }
  }

  lemma FlagStep(out: seq<seq<Value>>, op: CompareOp, n: real)
    requires out != []
    ensures Total(NonNull(Flags(out, op, n)))
         == (if Compare(op, MatchCount(out[0]), Number(n)) == Yes then 1.0 else 0.0) + Total(NonNull(Flags(out[1..], op, n)))
  {
    var rest := Flags(out[1..], op, n);
    var flag := Number(if Compare(op, MatchCount(out[0]), Number(n)) == Yes then 1.0 else 0.0);
    assert ([flag] + rest)[1..] == rest;
    assert ([flag] + NonNull(rest))[1..] == NonNull(rest);
  }

  lemma {:induction false} NoFlagIsNull(out: seq<seq<Value>>, op: CompareOp, n: real)
    ensures |NonNull(Flags(out, op, n))| == |out|
  {
    if out != [] {
      NoFlagIsNull(out[1..], op, n);
      var flags := Flags(out, op, n);
      assert flags[1..] == Flags(out[1..], op, n);
    }
  }

  /** The three totals are the numbers of facts, of overlapping facts and of unmatched facts. */
  lemma TotalsCount(base: TableId, grain: seq<ColumnId>, join: Join, names: Names, rows: seq<Row>, facts: seq<Row>)
    ensures TotalsOf(FactRows(base, grain, join, names, rows, facts))
         == Totals(|facts|, |Filter(facts, Overlapping(base, join, names, rows))|, |Filter(facts, Unmatched(base, join, names, rows))|)
  {
    var out := FactRows(base, grain, join, names, rows, facts);
    FlagsCount(base, grain, join, names, rows, facts);
    NoFlagIsNull(out, Gt, 1.0);
    NoFlagIsNull(out, Eq, 0.0);
  }

  lemma {:induction false} NoneKept<T(!new)>(ts: seq<T>, keep: T -> bool)
    ensures Filter(ts, keep) == [] <==> forall t :: t in ts ==> !keep(t)
  {
    if forall t :: t in ts ==> !keep(t) {
      FilterKeepsNone(ts, keep);
    } else {
      var t :| t in ts && keep(t);
      assert t in Filter(ts, keep);
    }
  }

  // -- the attestation as built, printed, parsed and run -----------------------------------------------------------

  /** What the model takes from the plan, the catalog and the data. */
  predicate Attestable(bundle: Bundle, plan: LogicalPlan, join: Join, db: Database) {
    && DistinctScans(Scans(plan)) && join in plan.joins && join.predicates != []
    && plan.base.table in bundle.tables && join.right.table in bundle.tables
    && (forall c :: c in bundle.columns ==> bundle.columns[c].name == c.name)
    && FactsOnly(plan.base.table, GrainOf(bundle.tables[plan.base.table]), FactOnly(plan.base.table, plan.where))
    && UniqueGrain(GrainOf(bundle.tables[plan.base.table]), RowsOf(db, plan.base.physical))
    && (forall c :: c in GrainOf(bundle.tables[join.right.table]) ==> c.table == join.right.table)
    && NullsAsDeclared(bundle, join.right, db)
  }

  /** A column declared not nullable holds no NULL. */
  predicate NullsAsDeclared(bundle: Bundle, scan: Scan, db: Database) {
    forall c :: c in bundle.columns && c.table == scan.table && !bundle.columns[c].nullable ==>
      NeverNull(c.name, RowsOf(db, scan.physical))
  }

  lemma {:induction false} ProbeIsDeclared(columns: map<ColumnId, ColumnRecord>, cs: seq<ColumnId>)
    requires Probe(columns, cs).Ok?
    ensures var c := Probe(columns, cs).value; c in cs && c in columns && !columns[c].nullable
  {
    if columns[cs[0]].nullable {
      ProbeIsDeclared(columns, cs[1..]);
    }
  }

  /** The left sides of memberships are columns in every condition of the plan. */
  predicate AttestedInOrder(env: Env, plan: LogicalPlan, join: Join) {
    AllInOrder(env, join.predicates) && AllInOrder(env, FactOnly(plan.base.table, plan.where))
  }

  function FactsOf(plan: LogicalPlan, names: Names, db: Database): seq<Row> {
    Population(plan.base.table, FactOnly(plan.base.table, plan.where), names, RowsOf(db, plan.base.physical))
  }

  lemma DiagnosticIsAliased(env: Env, plan: LogicalPlan, join: Join, grain: seq<ColumnId>, probe: ColumnId)
    requires Aliased(env, plan) && join in plan.joins && join.predicates != []
    ensures Aliased(env, Diagnostic(plan, join, grain, probe))
    ensures JoinsHavePredicates(Diagnostic(plan, join, grain, probe).joins)
    ensures AttestedInOrder(env, plan, join) ==> PlanInOrder(env, Diagnostic(plan, join, grain, probe))
  {
    var d := Diagnostic(plan, join, grain, probe);
    assert forall j :: j in d.joins ==> j == d.joins[0];
    assert d.joins[1..] == [];
  }

  /** Running the emitted attestation counts exactly the overlapping and the unmatched population facts. */
  lemma AttestationCounts(bundle: Bundle, plan: LogicalPlan, join: Join, scope: Scope, parameters: map<string, Value>,
                          engine: Engine, db: Database)
    requires Attestable(bundle, plan, join, db)
    requires AttestationOf(bundle, plan, join, scope, parameters).Ok?
    requires AttestedInOrder(AttestEnv(bundle, plan, scope, parameters), plan, join)
    ensures var a := AttestationOf(bundle, plan, join, scope, parameters).value;
            var names := AttestEnv(bundle, plan, scope, parameters).names;
            var facts, rows := FactsOf(plan, names, db), RowsOf(db, join.right.physical);
            RunAttestation(engine, a, db) ==
            Ok(Totals(|facts|, |Filter(facts, Overlapping(plan.base.table, join, names, rows))|,
                      |Filter(facts, Unmatched(plan.base.table, join, names, rows))|))
  {
    hide EmitSelect, Reparse, PlanRows, EvalSelect, FactsOnly, UniqueGrain, NeverNull, Matches, Injective, JoinsScanned;
    var env := AttestEnv(bundle, plan, scope, parameters);
    PlanScansAreAliased(env, plan);
    var grain := GrainOf(bundle.tables[plan.base.table]);
    var probes := GrainOf(bundle.tables[join.right.table]);
    ProbeIsDeclared(bundle.columns, probes);
    var probe := Probe(bundle.columns, probes).value;
    DiagnosticIsAliased(env, plan, join, grain, probe);
    var d := Diagnostic(plan, join, grain, probe);
    assert forall m :: m in d.measures ==> PolicyKept(m.1);
    CompiledQueryMeaning(env, d, engine, db);
    RightIsNotBase(plan, join);
    DiagnosticRows(plan, join, grain, probe, env.names, engine, db);
    TotalsCount(plan.base.table, grain, join, env.names, RowsOf(db, join.right.physical), FactsOf(plan, env.names, db));
  }

  lemma RightIsNotBase(plan: LogicalPlan, join: Join)
    requires DistinctScans(Scans(plan)) && join in plan.joins
    ensures join.right.table != plan.base.table
  {
    var i :| 0 <= i < |plan.joins| && plan.joins[i] == join;
    assert Scans(plan)[0] == plan.base && Scans(plan)[i + 1] == join.right;
  }

  /** The check passes exactly when every population fact has one matching row. */
  lemma AttestationDecidesExactlyOne(bundle: Bundle, plan: LogicalPlan, join: Join, scope: Scope, parameters: map<string, Value>,
                                     engine: Engine, db: Database)
    requires Attestable(bundle, plan, join, db)
    requires AttestationOf(bundle, plan, join, scope, parameters).Ok?
    requires AttestedInOrder(AttestEnv(bundle, plan, scope, parameters), plan, join)
    ensures var run := RunAttestation(engine, AttestationOf(bundle, plan, join, scope, parameters).value, db);
            var names := AttestEnv(bundle, plan, scope, parameters).names;
            run.Ok? && (Check(run.value) == None <==>
              forall f :: f in FactsOf(plan, names, db) ==>
                Matches(plan.base.table, join, names, RowsOf(db, join.right.physical), f) == 1)
  {
    hide Attestable, AttestationOf, AttestedInOrder, Matches;
    AttestationCounts(bundle, plan, join, scope, parameters, engine, db);
    var names := AttestEnv(bundle, plan, scope, parameters).names;
    var facts, rows := FactsOf(plan, names, db), RowsOf(db, join.right.physical);
    NoneKept(facts, Overlapping(plan.base.table, join, names, rows));
    NoneKept(facts, Unmatched(plan.base.table, join, names, rows));
  }

  // -- the prefix test -------------------------------------------------------------------------------------------------

  /** A table whose identifier extends another's with a dot. */
  predicate NestedUnder(table: TableId, outer: TableId) {
    outer + "." <= table + "."
  }

  /**
    The prefix test asks for more than the column's table: it also accepts columns of
    tables nested under the base table's identifier, and nothing else.
  */
  lemma PrefixTest(table: TableId, c: ColumnId)
    requires '.' !in c.name
    ensures StartsWith(table, c) <==> NestedUnder(c.table, table)
    ensures c.table == table ==> StartsWith(table, c)
  {
    var prefix, dotted, id := table + ".", c.table + ".", c.table + "." + c.name;
    assert id[..|dotted|] == dotted;
    if |prefix| <= |dotted| {
      assert id[..|prefix|] == dotted[..|prefix|];
    } else {
      assert prefix[|prefix| - 1] == '.';
      assert |prefix| <= |id| ==> id[|prefix| - 1] == c.name[|prefix| - 1 - |dotted|];
    }
  }

  /** Without nested tables the fact-only conditions are those that read base columns and nothing else. */
  lemma FactSideIsExact(table: TableId, p: Predicate)
    requires forall c :: c in ColumnsIn(p) ==> '.' !in c.name && (NestedUnder(c.table, table) ==> c.table == table)
    ensures FactSide(table, p) <==> ColumnsIn(p) != {} && forall c :: c in ColumnsIn(p) ==> c.table == table
  {
    forall c | c in ColumnsIn(p)
      ensures StartsWith(table, c) <==> c.table == table
    {
      PrefixTest(table, c);
    }
  }
}
