/**
  When the quotients that are emitted answer what the measures' contracts ask: for every
  measure, for every group, and for the rows of whole plans.
*/
module RatioMeaning {
  import opened Errors
  import opened Values
  import opened Expressions
  import opened Catalog
  import opened Plans
  import opened Relational
  import opened SqlQuery
  import opened PlanMeaning

  /** The answer the contract asks for is the value the emitted division gives. */
  predicate Right(m: Measure, engine: Engine, ts: seq<Tuple<TableId>>) {
    ContractMeasure(m, engine, ts) == Gives(Served(m, engine, ts))
  }

  /** So it is in every part of the measure as well. */
  predicate RightThroughout(m: Measure, engine: Engine, ts: seq<Tuple<TableId>>) {
    Right(m, engine, ts) && (m.Ratio? ==> RightThroughout(m.numerator, engine, ts) && RightThroughout(m.denominator, engine, ts))
  }

  /** A ratio's divisor is not zero, or its policy asks for the engine's own value. */
  predicate MetHere(m: Measure, engine: Engine, ts: seq<Tuple<TableId>>)
    requires m.Ratio?
  {
    var num, den := ContractMeasure(m.numerator, engine, ts), ContractMeasure(m.denominator, engine, ts);
    && num.Gives? && den.Gives?
    && (|| den.v != Number(0.0)
        || m.policy.NullOnZero?
        || (m.policy.ZeroOnZero? && (if num.v.Number? then engine.divideByZero(num.v) else Null) == Number(0.0)))
  }

  predicate Met(m: Measure, engine: Engine, ts: seq<Tuple<TableId>>) {
    m.Ratio? ==> MetHere(m, engine, ts) && Met(m.numerator, engine, ts) && Met(m.denominator, engine, ts)
  }

  /** A ratio of parts that are answered right is itself answered right exactly when its own policy is met. */
  lemma RatioStepExact(m: Measure, engine: Engine, ts: seq<Tuple<TableId>>)
    requires m.Ratio? && Right(m.numerator, engine, ts) && Right(m.denominator, engine, ts)
    ensures Right(m, engine, ts) <==> MetHere(m, engine, ts)
  {
  }

  /**
    For every measure, of any depth and with any policies: it and all its parts are answered
    right exactly when every divisor in it is not zero or has a policy that asks for what the
    engine answers.
  */
  lemma {:induction false} RatioPolicyExact(m: Measure, engine: Engine, ts: seq<Tuple<TableId>>)
    ensures RightThroughout(m, engine, ts) <==> Met(m, engine, ts)
  {
    if m.Ratio? {
      RatioPolicyExact(m.numerator, engine, ts);
      RatioPolicyExact(m.denominator, engine, ts);
      if RightThroughout(m.numerator, engine, ts) && RightThroughout(m.denominator, engine, ts) {
        RatioStepExact(m, engine, ts);
      }
    }
  }

  // -- the text of a nested ratio ------------------------------------------------------------------

  lemma {:induction false} LeftGroupedHasNone(m: Measure)
    ensures NoBareDivisor(LeftGrouped(m))
    decreases m, 0
  {
    if m.Ratio? {
      LeftGroupedHasNone(m.numerator);
      if m.policy.NullOnZero? {
        LeftGroupedHasNone(m.denominator);
      } else {
        GraftedHasNone(LeftGrouped(m.numerator), m.denominator, m.policy);
      }
    }
  }

  lemma {:induction false} GraftedHasNone(acc: Measure, d: Measure, policy: ZeroPolicy)
    requires NoBareDivisor(acc)
    ensures NoBareDivisor(GraftRatio(acc, d, policy))
    decreases d, 1
  {
    if d.Ratio? {
      GraftedHasNone(acc, d.numerator, policy);
      var longer := GraftRatio(acc, d.numerator, policy);
      if d.policy.NullOnZero? {
        LeftGroupedHasNone(d.denominator);
      } else {
        GraftedHasNone(longer, d.denominator, d.policy);
      }
    }
  }

  lemma {:induction false} NoneToRegroup(m: Measure)
    requires NoBareDivisor(m)
    ensures LeftGrouped(m) == m
  {
    if m.Ratio? {
      NoneToRegroup(m.numerator);
      NoneToRegroup(m.denominator);
    }
  }

  /** The text denotes the measure itself exactly when no divisor is a bare ratio. */
  lemma TextDenotesMeasure(m: Measure)
    ensures LeftGrouped(m) == m <==> NoBareDivisor(m)
  {
    LeftGroupedHasNone(m);
    if NoBareDivisor(m) {
      NoneToRegroup(m);
    }
  }

  // -- measures under the NULL policy ------------------------------------------------------------------

  /** Under the NULL policy the text denotes the measure, and every answer is right. */
  lemma {:induction false} KeptIsRight(m: Measure, engine: Engine, ts: seq<Tuple<TableId>>)
    requires PolicyKept(m)
    ensures LeftGrouped(m) == m && Right(m, engine, ts)
  {
    if m.Ratio? {
      KeptIsRight(m.numerator, engine, ts);
      KeptIsRight(m.denominator, engine, ts);
    }
  }

  // -- rows of a plan ----------------------------------------------------------------------------------

  /** What a plan's measures answer over a group as the text denotes them, is what they ask. */
  predicate GroupRight(ms: seq<(string, Measure)>, engine: Engine, ts: seq<Tuple<TableId>>) {
    forall m :: m in ms ==> ContractMeasure(m.1, engine, ts) == Gives(Served(LeftGrouped(m.1), engine, ts))
  }

  predicate NoneRefused(ms: seq<(string, Measure)>, engine: Engine, ts: seq<Tuple<TableId>>) {
    forall m :: m in ms ==> ContractMeasure(m.1, engine, ts).Gives?
  }

  lemma {:induction false} ValuesRight(ms: seq<(string, Measure)>, engine: Engine, ts: seq<Tuple<TableId>>)
    ensures GroupRight(ms, engine, ts) <==>
              NoneRefused(ms, engine, ts) && ServedValues(ms, engine, ts) == MeasureValues(ms, engine, ts)
  {
    hide ContractMeasure, Served, LeftGrouped;
    if ms != [] {
      ValuesRight(ms[1..], engine, ts);
      var s, v := ServedValues(ms, engine, ts), MeasureValues(ms, engine, ts);
      assert s[1..] == ServedValues(ms[1..], engine, ts) && v[1..] == MeasureValues(ms[1..], engine, ts);
      assert s == v <==> s[0] == v[0] && s[1..] == v[1..] by {
        assert s == [s[0]] + s[1..] && v == [v[0]] + v[1..];
      }
      assert forall m :: m in ms <==> m == ms[0] || m in ms[1..];
    }
  }

  predicate GroupsRight(plan: LogicalPlan, names: Names, engine: Engine, ts: seq<Tuple<TableId>>, ks: seq<Key>, groups: seq<Key>)
    requires |ts| == |ks|
  {
    forall k :: k in groups ==>
      var members := GroupMembers(Grouped(plan), ts, ks, k);
      Holds(plan.having, names)(Representative(members)) ==> GroupRight(plan.measures, engine, members)
  }

  predicate GroupsUnrefused(plan: LogicalPlan, names: Names, engine: Engine, ts: seq<Tuple<TableId>>, ks: seq<Key>, groups: seq<Key>)
    requires |ts| == |ks|
  {
    forall k :: k in groups ==>
      var members := GroupMembers(Grouped(plan), ts, ks, k);
      Holds(plan.having, names)(Representative(members)) ==> NoneRefused(plan.measures, engine, members)
  }

  lemma SplitsHead(a: seq<Value>, b: seq<Value>, x: seq<seq<Value>>, y: seq<seq<Value>>)
    ensures [a] + x == [b] + y <==> a == b && x == y
  {
    if [a] + x == [b] + y {
      assert ([a] + x)[0] == a && ([b] + y)[0] == b;
      assert ([a] + x)[1..] == x && ([b] + y)[1..] == y;
    }
  }

  lemma SplitsKey(k: Key, a: seq<Value>, b: seq<Value>)
    ensures k + a == k + b <==> a == b
  {
    assert (k + a)[|k|..] == a && (k + b)[|k|..] == b;
  }

  lemma {:induction false} GroupsExact(plan: LogicalPlan, names: Names, engine: Engine, ts: seq<Tuple<TableId>>, ks: seq<Key>, groups: seq<Key>)
    requires |ts| == |ks|
    ensures GroupsRight(plan, names, engine, ts, ks, groups) <==>
              && GroupsUnrefused(plan, names, engine, ts, ks, groups)
              && ServedGroups(plan, names, engine, ts, ks, groups) == GroupRows(plan, names, engine, ts, ks, groups)
  {
    hide Holds, GroupMembers, ServedValues, MeasureValues, GroupRight, NoneRefused;
    if groups != [] {
      var k, members := groups[0], GroupMembers(Grouped(plan), ts, ks, groups[0]);
      GroupsExact(plan, names, engine, ts, ks, groups[1..]);
      ValuesRight(plan.measures, engine, members);
      var s, v := ServedValues(plan.measures, engine, members), MeasureValues(plan.measures, engine, members);
      var x, y := ServedGroups(plan, names, engine, ts, ks, groups[1..]), GroupRows(plan, names, engine, ts, ks, groups[1..]);
      SplitsHead(k + s, k + v, x, y);
      SplitsKey(k, s, v);
      assert [] + x == x && [] + y == y;
      assert forall g :: g in groups <==> g == k || g in groups[1..];
    }
  }

  /** Every kept group of the plan has its measures answered right. */
  predicate RowsRight(plan: LogicalPlan, names: Names, engine: Engine, db: Database) {
    var ts := SourceRows(plan, names, db);
    var ks := KeysOf(ts, PlanKey(plan, engine));
    GroupsRight(plan, names, engine, ts, ks, GroupKeys(Grouped(plan), ks))
  }

  /** No kept group of the plan asks for an error. */
  predicate NothingRefused(plan: LogicalPlan, names: Names, engine: Engine, db: Database) {
    var ts := SourceRows(plan, names, db);
    var ks := KeysOf(ts, PlanKey(plan, engine));
    GroupsUnrefused(plan, names, engine, ts, ks, GroupKeys(Grouped(plan), ks))
  }

  /** The statement answers what the plan asks exactly when each kept group's measures are answered right. */
  lemma AnswersExact(plan: LogicalPlan, names: Names, engine: Engine, db: Database)
    ensures RowsRight(plan, names, engine, db) <==>
              NothingRefused(plan, names, engine, db) && ServedRows(plan, names, engine, db) == PlanRows(plan, names, engine, db)
  {
    hide SourceRows, PlanKey, GroupsRight, GroupsUnrefused, ServedGroups, GroupRows, FirstSeen;
    var ts := SourceRows(plan, names, db);
    var ks := KeysOf(ts, PlanKey(plan, engine));
    GroupsExact(plan, names, engine, ts, ks, GroupKeys(Grouped(plan), ks));
  }

  /** Every divisor of the measures is met over a group. */
  predicate GroupMet(ms: seq<(string, Measure)>, engine: Engine, ts: seq<Tuple<TableId>>) {
    forall m :: m in ms ==> Met(m.1, engine, ts)
  }

  predicate RowsMet(plan: LogicalPlan, names: Names, engine: Engine, db: Database) {
    var ts := SourceRows(plan, names, db);
    var ks := KeysOf(ts, PlanKey(plan, engine));
    forall k :: k in GroupKeys(Grouped(plan), ks) ==>
      var members := GroupMembers(Grouped(plan), ts, ks, k);
      Holds(plan.having, names)(Representative(members)) ==> GroupMet(plan.measures, engine, members)
  }

  /** Groups whose divisors are met answer what they ask. */
  lemma MetGroupsAreRight(ms: seq<(string, Measure)>, engine: Engine, ts: seq<Tuple<TableId>>)
    requires GroupMet(ms, engine, ts) && forall m :: m in ms ==> NoBareDivisor(m.1)
    ensures GroupRight(ms, engine, ts)
  {
    hide Met, RightThroughout, LeftGrouped;
    forall m | m in ms
      ensures ContractMeasure(m.1, engine, ts) == Gives(Served(LeftGrouped(m.1), engine, ts))
    {
      NoneToRegroup(m.1);
      RatioPolicyExact(m.1, engine, ts);
      ThroughoutIsRight(m.1, engine, ts);
    }
  }

  lemma ThroughoutIsRight(m: Measure, engine: Engine, ts: seq<Tuple<TableId>>)
    requires RightThroughout(m, engine, ts)
    ensures Right(m, engine, ts)
  {
  }

  /** An aggregate, or a ratio of aggregates. */
  predicate Flat(m: Measure) {
    m.Ratio? ==> m.numerator.Aggregate? && m.denominator.Aggregate?
  }

  lemma FlatGroupsExact(ms: seq<(string, Measure)>, engine: Engine, ts: seq<Tuple<TableId>>)
    requires forall m :: m in ms ==> Flat(m.1)
    ensures GroupRight(ms, engine, ts) <==> GroupMet(ms, engine, ts)
  {
    hide LeftGrouped;
    forall m | m in ms
      ensures ContractMeasure(m.1, engine, ts) == Gives(Served(LeftGrouped(m.1), engine, ts)) <==> Met(m.1, engine, ts)
    {
      NoneToRegroup(m.1);
      if m.1.Ratio? {
        RatioStepExact(m.1, engine, ts);
      }
    }
  }

  /** A plan whose divisors are all met on its kept groups is answered right; no divisor may be a bare ratio. */
  lemma MetRowsAreRight(plan: LogicalPlan, names: Names, engine: Engine, db: Database)
    requires RowsMet(plan, names, engine, db) && forall m :: m in plan.measures ==> NoBareDivisor(m.1)
    ensures RowsRight(plan, names, engine, db)
  {
    hide SourceRows, PlanKey, FirstSeen, Holds, GroupMet, GroupRight, NoBareDivisor;
    var ts := SourceRows(plan, names, db);
    var ks := KeysOf(ts, PlanKey(plan, engine));
    forall k | k in GroupKeys(Grouped(plan), ks)
      ensures var members := GroupMembers(Grouped(plan), ts, ks, k);
              GroupMet(plan.measures, engine, members) ==> GroupRight(plan.measures, engine, members)
    {
      var members := GroupMembers(Grouped(plan), ts, ks, k);
      if GroupMet(plan.measures, engine, members) {
        MetGroupsAreRight(plan.measures, engine, members);
      }
    }
  }

  /** For aggregates and ratios of aggregates the divisors decide: right exactly when every one is met on every kept group. */
  lemma FlatRowsExact(plan: LogicalPlan, names: Names, engine: Engine, db: Database)
    requires forall m :: m in plan.measures ==> Flat(m.1)
    ensures RowsRight(plan, names, engine, db) <==> RowsMet(plan, names, engine, db)
  {
    hide SourceRows, PlanKey, FirstSeen, Holds, GroupMet, GroupRight, Flat;
    var ts := SourceRows(plan, names, db);
    var ks := KeysOf(ts, PlanKey(plan, engine));
    forall k | k in GroupKeys(Grouped(plan), ks)
      ensures var members := GroupMembers(Grouped(plan), ts, ks, k);
              GroupRight(plan.measures, engine, members) <==> GroupMet(plan.measures, engine, members)
    {
      FlatGroupsExact(plan.measures, engine, GroupMembers(Grouped(plan), ts, ks, k));
    }
  }

  /** A plan whose measures all keep the NULL policy is answered right on every database. */
  lemma KeptPlansAreRight(plan: LogicalPlan, names: Names, engine: Engine, db: Database)
    requires forall m :: m in plan.measures ==> PolicyKept(m.1)
    ensures RowsRight(plan, names, engine, db)
  {
    hide SourceRows, PlanKey, FirstSeen, Holds, LeftGrouped, Served, ContractMeasure;
    var ts := SourceRows(plan, names, db);
    var ks := KeysOf(ts, PlanKey(plan, engine));
    forall k | k in GroupKeys(Grouped(plan), ks)
      ensures GroupRight(plan.measures, engine, GroupMembers(Grouped(plan), ts, ks, k))
    {
      var members := GroupMembers(Grouped(plan), ts, ks, k);
      forall m | m in plan.measures
        ensures ContractMeasure(m.1, engine, members) == Gives(Served(LeftGrouped(m.1), engine, members))
      {
        KeptIsRight(m.1, engine, members);
      }
    }
  }
}
