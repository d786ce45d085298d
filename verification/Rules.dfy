/**
  What rule closure reaches, independently of the loop that computes it: rounds of the active
  rules' effects, their limit, and how many rounds the limit takes.
*/
module Rules {
  import opened Errors
  import opened Values
  import opened Expressions
  import opened Catalog

  /** What the question and its metrics already require. */
  datatype Seed = Seed(
    tables: set<TableId>,
    columns: set<ColumnId>,
    metrics: set<string>,
    entities: set<string>,
    relationships: set<string>,
    slots: map<string, string>)

  /** The part of the closure's state that grows; of the slots only which are set. */
  datatype Reached = Reached(tables: set<TableId>, columns: set<ColumnId>, relationships: set<string>, slots: set<string>)

  function Start(seed: Seed): Reached {
    Reached(seed.tables, seed.columns, seed.relationships, seed.slots.Keys)
  }

  function Plus(a: Reached, b: Reached): Reached {
    Reached(a.tables + b.tables, a.columns + b.columns, a.relationships + b.relationships, a.slots + b.slots)
  }

  predicate Within(a: Reached, b: Reached) {
    a.tables <= b.tables && a.columns <= b.columns && a.relationships <= b.relationships && a.slots <= b.slots
  }

  function Elements<T>(xs: seq<T>): set<T> {
    set x | x in xs
  }

  const Nothing := Reached({}, {}, {}, {})

  // -- effects and activation -------------------------------------------------------------------

  function DemandOf(rule: Rule): Option<Demand> {
    match rule.effect
    case RequirePopulationFilter(d) => Some(d)
    case RequireTenantScope(d) => Some(d)
    case _ => None
  }

  function ConditionColumns(p: Option<Predicate>): set<ColumnId> {
    if p.None? then {} else ColumnsIn(p.value)
  }

  function RelationshipNeeds(bundle: Bundle, ref: Option<string>): Reached {
    if ref.None? then Nothing
    else match FindRelationship(bundle.relationships, ref.value)
      case None => Reached({}, {}, {ref.value}, {})
      case Some(rel) => Reached({rel.leftTable, rel.rightTable}, JoinKeys(rel.predicates), {ref.value}, {})
  }

  function DemandNeeds(bundle: Bundle, d: Demand): Reached {
    var columns := ConditionColumns(d.condition);
    Plus(Reached(Elements(d.tables) + TablesOf(columns), columns, {}, {}), RelationshipNeeds(bundle, d.relationship))
  }

  /** What an effect pulls in. */
  function Needs(bundle: Bundle, rule: Rule): Reached {
    match rule.effect
    case SetSlot(slot, Some(_)) => Reached({}, {}, {}, {slot})
    case _ => if DemandOf(rule).Some? then DemandNeeds(bundle, DemandOf(rule).value) else Nothing
  }

  predicate Active(bundle: Bundle, seed: Seed, rule: Rule, at: Reached) {
    match rule.activation
    case Always => true
    case ScanTagged(tag) => exists t :: t in at.tables && t in bundle.tables && tag in bundle.tables[t].tags
    case ContainsEntity(e) => e in seed.entities
    case UsesTable(t) => t in at.tables
    case UsesColumn(c) => c in at.columns
    case UsesMetric(m) => m in seed.metrics
    case SlotUnset(s) => s !in at.slots
  }

  // -- rounds ------------------------------------------------------------------------------------

  function ActiveRules(bundle: Bundle, seed: Seed, rules: seq<Rule>, at: Reached): (rs: seq<Rule>)
    ensures forall r :: r in rs <==> r in rules && Active(bundle, seed, r, at)
  {
    if rules == [] then []
    else (if Active(bundle, seed, rules[0], at) then [rules[0]] else []) + ActiveRules(bundle, seed, rules[1..], at)
  }

  function AllNeeds(bundle: Bundle, rules: seq<Rule>): Reached {
    if rules == [] then Nothing else Plus(Needs(bundle, rules[0]), AllNeeds(bundle, rules[1..]))
  }

  function Round(bundle: Bundle, seed: Seed, at: Reached): Reached {
    Plus(at, AllNeeds(bundle, ActiveRules(bundle, seed, bundle.rules, at)))
  }

  /** The state after n rounds. */
  function After(bundle: Bundle, seed: Seed, n: nat): Reached {
    if n == 0 then Start(seed) else Round(bundle, seed, After(bundle, seed, n - 1))
  }

  lemma {:induction false} SumHolds(bundle: Bundle, rules: seq<Rule>)
    ensures forall r :: r in rules ==> Within(Needs(bundle, r), AllNeeds(bundle, rules))
  {
    if rules != [] {
      SumHolds(bundle, rules[1..]);
      assert forall r :: r in rules ==> r == rules[0] || r in rules[1..];
    }
  }

  lemma {:induction false} SumIsLeast(bundle: Bundle, rules: seq<Rule>, bound: Reached)
    requires forall r :: r in rules ==> Within(Needs(bundle, r), bound)
    ensures Within(AllNeeds(bundle, rules), bound)
  {
    if rules != [] {
      assert rules[0] in rules && forall r :: r in rules[1..] ==> r in rules;
      SumIsLeast(bundle, rules[1..], bound);
    }
  }

  /** The order and multiplicity of the rules do not matter to what they reach together. */
  lemma SumIgnoresOrder(bundle: Bundle, a: seq<Rule>, b: seq<Rule>)
    requires forall r :: r in a <==> r in b
    ensures AllNeeds(bundle, a) == AllNeeds(bundle, b)
  {
    SumHolds(bundle, a);
    SumHolds(bundle, b);
    SumIsLeast(bundle, a, AllNeeds(bundle, b));
    SumIsLeast(bundle, b, AllNeeds(bundle, a));
  }

  lemma {:induction false} RoundsGrow(bundle: Bundle, seed: Seed, m: nat, n: nat)
    requires m <= n
    ensures Within(After(bundle, seed, m), After(bundle, seed, n))
    decreases n
  {
    hide AllNeeds, ActiveRules;
    if m < n {
      RoundsGrow(bundle, seed, m, n - 1);
    }
  }

  /** Once a round changes nothing, no later round does. */
  lemma {:induction false} Stays(bundle: Bundle, seed: Seed, k: nat, n: nat)
    requires After(bundle, seed, k + 1) == After(bundle, seed, k) && k <= n
    ensures After(bundle, seed, n) == After(bundle, seed, k)
    decreases n
  {
    hide Round;
    if k < n {
      Stays(bundle, seed, k, n - 1);
      assert After(bundle, seed, n) == Round(bundle, seed, After(bundle, seed, n - 1));
      assert After(bundle, seed, k + 1) == Round(bundle, seed, After(bundle, seed, k));
    }
  }

  // -- the least fixed point ----------------------------------------------------------------------

  /**
    Activation as the whole run sees it. Slots are only ever set, so a rule that waits for an
    unset slot is active in some round exactly when the seed leaves that slot unset.
  */
  predicate ActiveFrom(bundle: Bundle, seed: Seed, rule: Rule, at: Reached) {
    if rule.activation.SlotUnset? then rule.activation.unset !in seed.slots else Active(bundle, seed, rule, at)
  }

  ghost predicate Closed(bundle: Bundle, seed: Seed, at: Reached) {
    Within(Start(seed), at)
    && forall r :: r in bundle.rules && ActiveFrom(bundle, seed, r, at) ==> Within(Needs(bundle, r), at)
  }

  lemma ActiveIsMonotone(bundle: Bundle, seed: Seed, rule: Rule, a: Reached, b: Reached)
    requires Within(Start(seed), a) && Within(a, b) && Active(bundle, seed, rule, a)
    ensures ActiveFrom(bundle, seed, rule, b)
  {
  }

  lemma RoundStaysBelow(bundle: Bundle, seed: Seed, at: Reached, bound: Reached)
    requires Closed(bundle, seed, bound) && Within(Start(seed), at) && Within(at, bound)
    ensures Within(Round(bundle, seed, at), bound)
  {
    hide Needs, Within, ActiveFrom, Active, Start, AllNeeds;
    var active := ActiveRules(bundle, seed, bundle.rules, at);
    forall r | r in active
      ensures Within(Needs(bundle, r), bound)
    {
      ActiveIsMonotone(bundle, seed, r, at, bound);
    }
    SumIsLeast(bundle, active, bound);
    BothWithin(at, AllNeeds(bundle, active), bound);
  }

  lemma {:induction false} RoundsStayBelow(bundle: Bundle, seed: Seed, n: nat, bound: Reached)
    requires Closed(bundle, seed, bound)
    ensures Within(After(bundle, seed, n), bound)
  {
    assert After(bundle, seed, 0) == Start(seed) && Within(Start(seed), bound);
    if n > 0 {
      hide Within, Round, Closed, Start;
      RoundsStayBelow(bundle, seed, n - 1, bound);
      RoundsGrow(bundle, seed, 0, n - 1);
      RoundStaysBelow(bundle, seed, After(bundle, seed, n - 1), bound);
    }
  }

  lemma BothWithin(a: Reached, b: Reached, bound: Reached)
    requires Within(a, bound) && Within(b, bound)
    ensures Within(Plus(a, b), bound)
  {
  }

  /** A state that a round leaves unchanged is the least closed state above the seed. */
  lemma LimitIsLeast(bundle: Bundle, seed: Seed, k: nat)
    requires After(bundle, seed, k + 1) == After(bundle, seed, k)
    ensures Closed(bundle, seed, After(bundle, seed, k))
    ensures forall other :: Closed(bundle, seed, other) ==> Within(After(bundle, seed, k), other)
  {
    hide Needs, Within;
    var at := After(bundle, seed, k);
    RoundsGrow(bundle, seed, 0, k);
    forall r | r in bundle.rules && ActiveFrom(bundle, seed, r, at)
      ensures Within(Needs(bundle, r), at)
    {
      // A rule that waits for an unset slot was active in the first round.
      var first := if r.activation.SlotUnset? then 0 else k;
      RoundServes(bundle, seed, first, r);
      RoundsGrow(bundle, seed, first + 1, k + 1);
      WithinTrans(Needs(bundle, r), After(bundle, seed, first + 1), at);
    }
    forall other | Closed(bundle, seed, other)
      ensures Within(at, other)
    {
      RoundsStayBelow(bundle, seed, k, other);
    }
  }

  /** Two bundles that list the same rules in different orders reach the same states round by round. */
  lemma {:induction false} RoundsIgnoreRuleOrder(a: Bundle, b: Bundle, seed: Seed, n: nat)
    requires a == b.(rules := a.rules) && forall r :: r in a.rules <==> r in b.rules
    ensures After(a, seed, n) == After(b, seed, n)
  {
    hide Active, Needs, AllNeeds, Plus;
    if n > 0 {
      RoundsIgnoreRuleOrder(a, b, seed, n - 1);
      var at := After(a, seed, n - 1);
      var x, y := ActiveRules(a, seed, a.rules, at), ActiveRules(b, seed, b.rules, at);
      forall r
        ensures r in x <==> r in y
      {
        ActiveNeedsOnlyTables(a, b, seed, r, at);
      }
      SumIgnoresOrder(a, x, y);
      SumNeedsOnlyRelationships(a, b, y);
    }
  }

  lemma ActiveNeedsOnlyTables(a: Bundle, b: Bundle, seed: Seed, rule: Rule, at: Reached)
    requires a.tables == b.tables
    ensures Active(a, seed, rule, at) <==> Active(b, seed, rule, at)
  {
  }

  lemma {:induction false} SumNeedsOnlyRelationships(a: Bundle, b: Bundle, rules: seq<Rule>)
    requires a.relationships == b.relationships
    ensures AllNeeds(a, rules) == AllNeeds(b, rules)
  {
    if rules != [] {
      SumNeedsOnlyRelationships(a, b, rules[1..]);
    }
  }

  // -- the round bound -------------------------------------------------------------------------------

  /** The rules active in one of the first n rounds. */
  function Fired(bundle: Bundle, seed: Seed, n: nat): (fired: set<Rule>)
    ensures forall r :: r in fired ==> r in bundle.rules
  {
    if n == 0 then {}
    else Fired(bundle, seed, n - 1) + Elements(ActiveRules(bundle, seed, bundle.rules, After(bundle, seed, n - 1)))
  }

  lemma {:induction false} FiredEffectsStay(bundle: Bundle, seed: Seed, n: nat)
    ensures forall r :: r in Fired(bundle, seed, n) ==> Within(Needs(bundle, r), After(bundle, seed, n))
  {
    hide Active, Needs, Within, After, ActiveRules;
    if n > 0 {
      FiredEffectsStay(bundle, seed, n - 1);
      RoundsGrow(bundle, seed, n - 1, n);
      forall r | r in Fired(bundle, seed, n)
        ensures Within(Needs(bundle, r), After(bundle, seed, n))
      {
        if r in Fired(bundle, seed, n - 1) {
          WithinTrans(Needs(bundle, r), After(bundle, seed, n - 1), After(bundle, seed, n));
        } else {
          RoundServes(bundle, seed, n - 1, r);
        }
      }
    } else {
      assert Fired(bundle, seed, 0) == {};
    }
  }

  lemma PlusBelow(a: Reached, b: Reached)
    requires Within(b, a)
    ensures Plus(a, b) == a
  {
    assert a.tables + b.tables == a.tables && a.columns + b.columns == a.columns;
    assert a.relationships + b.relationships == a.relationships && a.slots + b.slots == a.slots;
  }

  lemma WithinTrans(a: Reached, b: Reached, c: Reached)
    requires Within(a, b) && Within(b, c)
    ensures Within(a, c)
  {
  }

  /** What a round's active rules need is there after the round. */
  lemma RoundServes(bundle: Bundle, seed: Seed, n: nat, r: Rule)
    requires r in bundle.rules && Active(bundle, seed, r, After(bundle, seed, n))
    ensures Within(Needs(bundle, r), After(bundle, seed, n + 1))
  {
    var active := ActiveRules(bundle, seed, bundle.rules, After(bundle, seed, n));
    SumHolds(bundle, active);
    assert r in active;
  }

  /** A round that changes the state processes some effectful rule for the first time. */
  lemma ChangeNeedsANewRule(bundle: Bundle, seed: Seed, n: nat)
    requires After(bundle, seed, n + 1) != After(bundle, seed, n)
    ensures exists r :: r in Fired(bundle, seed, n + 1) && r !in Fired(bundle, seed, n) && Needs(bundle, r) != Nothing
  {
    var at := After(bundle, seed, n);
    var active := ActiveRules(bundle, seed, bundle.rules, at);
    if forall r :: r in active ==> r in Fired(bundle, seed, n) || Needs(bundle, r) == Nothing {
      FiredEffectsStay(bundle, seed, n);
      SumIsLeast(bundle, active, at);
      PlusBelow(at, AllNeeds(bundle, active));
    }
  }

  lemma FiredGrows(bundle: Bundle, seed: Seed, n: nat)
    requires exists r :: r in Fired(bundle, seed, n + 1) && r !in Fired(bundle, seed, n)
    ensures |Fired(bundle, seed, n)| + 1 <= |Fired(bundle, seed, n + 1)|
  {
    var less, more := Fired(bundle, seed, n), Fired(bundle, seed, n + 1);
    assert less <= more;
    hide Fired;
    StrictlyMore(less, more);
  }

  lemma StrictlyMore(less: set<Rule>, more: set<Rule>)
    requires less <= more && exists r :: r in more && r !in less
    ensures |less| + 1 <= |more|
  {
    var r :| r in more && r !in less;
    assert more == (less + {r}) + (more - less - {r});
  }

  lemma {:induction false} ChangesAreCounted(bundle: Bundle, seed: Seed, n: nat)
    requires forall i :: 0 <= i < n ==> After(bundle, seed, i + 1) != After(bundle, seed, i)
    ensures n <= |Fired(bundle, seed, n)| <= |bundle.rules|
  {
    hide After, Needs, ActiveRules, Fired;
    if n > 0 {
      ChangesAreCounted(bundle, seed, n - 1);
      ChangeNeedsANewRule(bundle, seed, n - 1);
      FiredGrows(bundle, seed, n - 1);
    }
    AtMostAsManyAs(Fired(bundle, seed, n), bundle.rules);
  }

  lemma {:induction false} AtMostAsManyAs<T>(xs: set<T>, ys: seq<T>)
    requires forall x :: x in xs ==> x in ys
    ensures |xs| <= |ys|
  {
    if ys == [] {
      assert xs == {};
    } else {
      var rest := xs - {ys[0]};
      AtMostAsManyAs(rest, ys[1..]);
      assert xs <= rest + {ys[0]};
      assert |xs| <= |rest| + 1;
    }
  }

  /** With n rules some round among the first n + 1 changes nothing. */
  lemma ConvergesWithinRules(bundle: Bundle, seed: Seed)
    ensures exists k :: 0 <= k <= |bundle.rules| && After(bundle, seed, k + 1) == After(bundle, seed, k)
  {
    var n := |bundle.rules| + 1;
    if forall i :: 0 <= i < n ==> After(bundle, seed, i + 1) != After(bundle, seed, i) {
      ChangesAreCounted(bundle, seed, n);
    }
  }

  // -- the bound is tight -----------------------------------------------------------------------------

  function EmptyDemand(table: TableId): Demand {
    Demand(None, BeforeAggregation, [table], None)
  }

  /** Rule i fires on the i-th table and introduces the next one. */
  predicate ChainRules(rules: seq<Rule>, tables: seq<TableId>) {
    && |tables| == |rules| + 1
    && (forall i, j :: 0 <= i < j < |tables| ==> tables[i] != tables[j])
    && (forall i :: 0 <= i < |rules| ==>
          rules[i].activation == UsesTable(tables[i])
          && rules[i].effect == RequirePopulationFilter(EmptyDemand(tables[i + 1])))
  }

  function FirstTables(tables: seq<TableId>, n: nat): set<TableId>
    requires n <= |tables|
  {
    Elements(tables[..n])
  }

  lemma ChainNeeds(bundle: Bundle, tables: seq<TableId>, i: nat)
    requires ChainRules(bundle.rules, tables) && i < |bundle.rules|
    ensures Needs(bundle, bundle.rules[i]) == Reached({tables[i + 1]}, {}, {}, {})
  {
    assert Elements([tables[i + 1]]) == {tables[i + 1]};
    assert TablesOf({}) == {};
  }

  /** Exactly the first n rules of the chain are active when its first n tables are reached. */
  lemma ChainActive(bundle: Bundle, seed: Seed, tables: seq<TableId>, n: nat, at: Reached)
    requires ChainRules(bundle.rules, tables) && n <= |bundle.rules| && at.tables == FirstTables(tables, n)
    ensures forall i :: 0 <= i < |bundle.rules| ==> (Active(bundle, seed, bundle.rules[i], at) <==> i < n)
  {
    forall i | 0 <= i < |bundle.rules|
      ensures tables[i] in FirstTables(tables, n) <==> i < n
    {
      if i < n {
        assert tables[..n][i] == tables[i];
      }
    }
  }

  lemma ChainSum(bundle: Bundle, seed: Seed, tables: seq<TableId>, n: nat, at: Reached)
    requires ChainRules(bundle.rules, tables) && 0 < n <= |bundle.rules| && at.tables == FirstTables(tables, n)
    ensures Round(bundle, seed, at).tables == FirstTables(tables, n + 1)
  {
    hide ChainRules, Active, Needs, AllNeeds;
    var active := ActiveRules(bundle, seed, bundle.rules, at);
    ChainActive(bundle, seed, tables, n, at);
    ChainLength(bundle, tables);
    assert tables[..n + 1] == tables[..n] + [tables[n]];
    var bound := Reached(FirstTables(tables, n + 1), {}, {}, {});
    forall r | r in active
      ensures Within(Needs(bundle, r), bound)
    {
      var i :| 0 <= i < |bundle.rules| && bundle.rules[i] == r;
      ChainNeeds(bundle, tables, i);
      assert tables[..n + 1][i + 1] == tables[i + 1];
    }
    SumIsLeast(bundle, active, bound);
    SumHolds(bundle, active);
    assert bundle.rules[n - 1] in active;
    ChainNeeds(bundle, tables, n - 1);
  }

  lemma ChainLength(bundle: Bundle, tables: seq<TableId>)
    requires ChainRules(bundle.rules, tables)
    ensures |tables| == |bundle.rules| + 1
  {
  }

  lemma {:induction false} ChainReaches(bundle: Bundle, seed: Seed, tables: seq<TableId>, n: nat)
    requires ChainRules(bundle.rules, tables) && seed.tables == {tables[0]} && n <= |bundle.rules|
    ensures After(bundle, seed, n).tables == FirstTables(tables, n + 1)
  {
    if n == 0 {
      assert tables[..1] == [tables[0]];
    } else {
      ChainReaches(bundle, seed, tables, n - 1);
      ChainSum(bundle, seed, tables, n, After(bundle, seed, n - 1));
    }
  }

  lemma NextTableIsNew(rules: seq<Rule>, tables: seq<TableId>, i: nat)
    requires ChainRules(rules, tables) && i < |rules|
    ensures |tables| == |rules| + 1 && FirstTables(tables, i + 2) != FirstTables(tables, i + 1)
  {
    assert tables[..i + 2][i + 1] == tables[i + 1];
    assert tables[i + 1] in FirstTables(tables, i + 2) && tables[i + 1] !in FirstTables(tables, i + 1);
  }

  /** A chain of n rules changes the state in each of its first n rounds, however long it is. */
  lemma ChainChangesEveryRound(bundle: Bundle, seed: Seed, tables: seq<TableId>)
    requires ChainRules(bundle.rules, tables) && seed.tables == {tables[0]}
    ensures forall i :: 0 <= i < |bundle.rules| ==> After(bundle, seed, i + 1) != After(bundle, seed, i)
  {
    hide After, ChainRules;
    forall i | 0 <= i < |bundle.rules|
      ensures After(bundle, seed, i + 1) != After(bundle, seed, i)
    {
      NextTableIsNew(bundle.rules, tables, i);
      ChainReaches(bundle, seed, tables, i);
      ChainReaches(bundle, seed, tables, i + 1);
    }
  }
}
