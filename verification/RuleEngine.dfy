/**
  The deterministic rule engine: candidates are snapshotted at the start of each round, their
  effects update the state in place, and the loop runs to a fixed point or to its cap.
*/
module RuleEngine {
  import opened Errors
  import opened Values
  import opened Expressions
  import opened Catalog
  import opened Ordering
  import opened Rules

  const MAX_CLOSURE_ROUNDS := 8

  datatype Obligation = Obligation(rule: string, demand: Demand)

  datatype ClosureResult = ClosureResult(
    reached: Reached,
    obligations: seq<Obligation>,
    slots: map<string, string>,
    applied: seq<string>,
    rounds: nat,
    requirements: seq<string>)

  /** What the loop records besides the state: slot values, obligations and rules applied. */
  datatype Ledger = Ledger(
    slots: map<string, string>,
    obligations: map<string, Obligation>,
    applied: map<string, Rule>,
    requirements: seq<string>)

  predicate DistinctRules(rules: seq<Rule>) {
    forall r, q | r in rules && q in rules && r != q :: r.ref != q.ref
  }

  // -- what the ledger keeps --------------------------------------------------------------------

  predicate Sound(bundle: Bundle, seed: Seed, at: Reached, l: Ledger) {
    && (forall ref :: ref in l.applied ==>
          && l.applied[ref].ref == ref && l.applied[ref] in bundle.rules
          && ActiveFrom(bundle, seed, l.applied[ref], at)
          && FillsItsSlot(l.applied[ref], l.slots))
    && (forall ref :: ref in l.obligations ==>
          && ref in l.applied && DemandOf(l.applied[ref]).Some?
          && l.obligations[ref] == Obligation(ref, DemandOf(l.applied[ref]).value))
    && (forall ref :: ref in l.requirements ==> ref in l.applied && l.applied[ref].effect.RequireSemijoin?)
    && (forall s :: s in seed.slots ==> s in l.slots && l.slots[s] == seed.slots[s])
    && l.slots.Keys == at.slots
  }

  /** An applied default wrote the value its slot still has. */
  predicate FillsItsSlot(rule: Rule, slots: map<string, string>) {
    rule.effect.SetSlot? ==>
      rule.effect.slotValue.Some? && rule.effect.slot in slots && slots[rule.effect.slot] == rule.effect.slotValue.value
  }

  predicate Recorded(rule: Rule, l: Ledger) {
    match rule.effect
    case SetSlot(slot, value) => value.Some? ==> slot in l.slots
    case PreferRelationship => rule.ref in l.applied
    case RequireSemijoin => rule.ref in l.requirements
    case _ => rule.ref in l.obligations
  }

  predicate Grows(a: Ledger, b: Ledger) {
    && a.applied.Keys <= b.applied.Keys && a.obligations.Keys <= b.obligations.Keys
    && a.slots.Keys <= b.slots.Keys && forall ref :: ref in a.requirements ==> ref in b.requirements
  }

  /** Everything beyond the seed is published and usable by the principal. */
  predicate Reauthorized(bundle: Bundle, scope: Scope, seed: Seed, at: Reached) {
    && (forall t :: t in at.tables - seed.tables ==> GetTable(bundle, t, scope).Ok?)
    && ColumnsUsable(scope, at.columns - seed.columns, UseInPredicate)
  }

  /** Nothing that a demand brings in is unknown or withheld. */
  predicate DemandUsable(bundle: Bundle, scope: Scope, d: Demand) {
    var needs := DemandNeeds(bundle, d);
    && (d.relationship.Some? ==> GetRelationship(bundle, d.relationship.value, scope).Ok?)
    && ColumnsUsable(scope, needs.columns, UseInPredicate) && forall t :: t in needs.tables ==> GetTable(bundle, t, scope).Ok?
  }

  /** Every table of the seed is published, and every demand of the catalog's rules is usable. */
  predicate Unobstructed(bundle: Bundle, scope: Scope, seed: Seed) {
    && seed.tables <= bundle.tables.Keys
    && forall q :: q in bundle.rules && DemandOf(q).Some? ==> DemandUsable(bundle, scope, DemandOf(q).value)
  }

  lemma ReachedArePublished(bundle: Bundle, scope: Scope, seed: Seed, at: Reached)
    requires Reauthorized(bundle, scope, seed, at)
    ensures Unobstructed(bundle, scope, seed) ==> at.tables <= bundle.tables.Keys
  {
    forall t | t in at.tables && t !in seed.tables
      ensures t in bundle.tables
    {
      assert t in at.tables - seed.tables;
    }
  }

  lemma ActiveFromIsMonotone(bundle: Bundle, seed: Seed, rule: Rule, a: Reached, b: Reached)
    requires Within(a, b) && ActiveFrom(bundle, seed, rule, a)
    ensures ActiveFrom(bundle, seed, rule, b)
  {
  }

  lemma SoundLater(bundle: Bundle, seed: Seed, a: Reached, b: Reached, l: Ledger)
    requires Sound(bundle, seed, a, l) && Within(a, b) && a.slots == b.slots
    ensures Sound(bundle, seed, b, l)
  {
    forall ref | ref in l.applied
      ensures ActiveFrom(bundle, seed, l.applied[ref], b)
    {
      ActiveFromIsMonotone(bundle, seed, l.applied[ref], a, b);
    }
  }

  // -- the engine ---------------------------------------------------------------------------------

  /** Python's stable sort by precedence, one insertion at a time. */
  predicate Precedes(a: Rule, b: Rule) {
    a.precedence.0 < b.precedence.0 || (a.precedence.0 == b.precedence.0 && a.precedence.1 < b.precedence.1)
  }

  function InsertByPrecedence(rule: Rule, rules: seq<Rule>): (r: seq<Rule>)
    ensures forall x :: x in r <==> x == rule || x in rules
    ensures |r| == |rules| + 1
  {
    if rules == [] || Precedes(rule, rules[0]) then [rule] + rules
    else [rules[0]] + InsertByPrecedence(rule, rules[1..])
  }

  method SortByPrecedence(rules: seq<Rule>) returns (sorted: seq<Rule>)
    ensures forall r :: r in sorted <==> r in rules
  {
    sorted := [];
    for i := 0 to |rules|
      invariant forall r :: r in sorted <==> r in rules[..i]
    {
      sorted := InsertByPrecedence(rules[i], sorted);
      assert rules[..i + 1] == rules[..i] + [rules[i]];
    }
    assert rules[..|rules|] == rules;
  }

  class Engine {
    const bundle: Bundle
    /** The rules in buckets by kind of activation, each bucket in order of precedence. */
    const buckets: seq<seq<Rule>>

    predicate Valid() {
      && DistinctRules(bundle.rules)
      && (forall b, r :: b in buckets && r in b ==> r in bundle.rules)
      && (forall r :: r in bundle.rules ==> exists b :: b in buckets && r in b)
    }

    constructor (bundle: Bundle)
      requires DistinctRules(bundle.rules)
      ensures Valid() && this.bundle == bundle
    {
      var buckets' := [];
      var kinds: seq<nat> := [];
      for i := 0 to |bundle.rules|
        invariant |kinds| == |buckets'|
        invariant forall b, r :: b in buckets' && r in b ==> r in bundle.rules
        invariant forall r :: r in bundle.rules[..i] ==> exists b :: b in buckets' && r in b
      {
        var rule := bundle.rules[i];
        ghost var before := buckets';
        var k := IndexOf(kinds, KindOf(rule.activation));
        if k < |kinds| {
          buckets' := buckets'[k := buckets'[k] + [rule]];
        } else {
          kinds := kinds + [KindOf(rule.activation)];
          buckets' := buckets' + [[rule]];
        }
        assert buckets'[k] in buckets' && rule in buckets'[k];
        ghost var done := bundle.rules[..i + 1];
        forall r | r in done
          ensures exists b :: b in buckets' && r in b
        {
          if r in bundle.rules[..i] {
            var b :| b in before && r in b;
            var n :| 0 <= n < |before| && before[n] == b;
            assert buckets'[n] in buckets' && r in buckets'[n];
          } else {
            assert done == bundle.rules[..i] + [rule];
          }
        }
      }
      assert bundle.rules[..|bundle.rules|] == bundle.rules;
      var sorted := [];
      for i := 0 to |buckets'|
        invariant |sorted| == i
        invariant forall n, r :: 0 <= n < i ==> (r in sorted[n] <==> r in buckets'[n])
      {
        var s := SortByPrecedence(buckets'[i]);
        sorted := sorted + [s];
      }
      this.bundle := bundle;
      this.buckets := sorted;
      new;
      forall r | r in bundle.rules
        ensures exists b :: b in buckets && r in b
      {
        var b :| b in buckets' && r in b;
        var n :| 0 <= n < |buckets'| && buckets'[n] == b;
        assert buckets[n] in buckets && r in buckets[n];
      }
      forall b, r | b in buckets && r in b
        ensures r in bundle.rules
      {
        var n :| 0 <= n < |buckets| && buckets[n] == b;
        assert buckets'[n] in buckets' && r in buckets'[n];
      }
    }

    /** Whether a rule is active; looking for a tag reads each reached table until one has it. */
    method Activates(seed: Seed, rule: Rule, at: Reached) returns (r: Outcome<bool>)
      ensures r.Ok? ==> (r.value <==> Active(bundle, seed, rule, at))
      ensures r.Raise? ==> r.code == ObjectNotFound && rule.activation.ScanTagged? && !(at.tables <= bundle.tables.Keys)
      ensures r == Ok(false) && rule.activation.ScanTagged? ==> at.tables <= bundle.tables.Keys
    {
      if !rule.activation.ScanTagged? {
        return Ok(Active(bundle, seed, rule, at));
      }
      var left := at.tables;
      while left != {}
        invariant left <= at.tables
        invariant forall t :: t in at.tables - left ==> t in bundle.tables && rule.activation.tag !in bundle.tables[t].tags
        decreases left
      {
        var t :| t in left;
        if t !in bundle.tables {
          return Raise(ObjectNotFound);
        }
        if rule.activation.tag in bundle.tables[t].tags {
          return Ok(true);
        }
        left := left - {t};
      }
      assert at.tables - {} == at.tables;
      r := Ok(false);
    }

    /** The active rules. An unknown table is an error as soon as the search for a tag meets it. */
    method Candidates(seed: Seed, at: Reached) returns (r: Outcome<seq<Rule>>)
      requires Valid()
      ensures r.Ok? ==> forall q :: q in r.value <==> q in bundle.rules && Active(bundle, seed, q, at)
      ensures r.Ok? ==> forall q :: q in bundle.rules && q.activation.ScanTagged? && q !in r.value ==> at.tables <= bundle.tables.Keys
      ensures r.Raise? ==> r.code == ObjectNotFound && !(at.tables <= bundle.tables.Keys)
                           && exists q :: q in bundle.rules && q.activation.ScanTagged?
    {
      hide Active;
      var seen := [];
      for i := 0 to |buckets|
        invariant forall r :: r in seen ==> r in bundle.rules && Active(bundle, seed, r, at)
        invariant forall b, r :: b in buckets[..i] && r in b && Active(bundle, seed, r, at) ==> r in seen
        invariant forall b, r :: b in buckets[..i] && r in b && r.activation.ScanTagged? && r !in seen ==> at.tables <= bundle.tables.Keys
      {
        var bucket := buckets[i];
        assert bucket in buckets;
        ghost var before := seen;
        for j := 0 to |bucket|
          invariant forall r :: r in seen ==> r in bundle.rules && Active(bundle, seed, r, at)
          invariant forall r :: r in before ==> r in seen
          invariant forall r :: r in bucket[..j] && Active(bundle, seed, r, at) ==> r in seen
          invariant forall r :: r in bucket[..j] && r.activation.ScanTagged? && r !in seen ==> at.tables <= bundle.tables.Keys
        {
          assert bucket[j] in bucket;
          var active :- Activates(seed, bucket[j], at);
          if active {
            seen := seen + [bucket[j]];
          }
          assert bucket[..j + 1] == bucket[..j] + [bucket[j]];
        }
        assert bucket[..|bucket|] == bucket;
        assert buckets[..i + 1] == buckets[..i] + [bucket];
      }
      assert buckets[..|buckets|] == buckets;
      var rules := SortByPrecedence(seen);
      r := Ok(rules);
    }

    /** A mandatory effect: its dependencies, reauthorized. */
    method PullIn(scope: Scope, at: Reached, d: Demand) returns (r: Outcome<Reached>)
      ensures r.Ok? ==> r.value == Plus(at, DemandNeeds(bundle, d)) && Within(at, r.value) && r.value.slots == at.slots
      ensures r.Ok? ==> ColumnsUsable(scope, r.value.columns - at.columns, UseInPredicate)
      ensures r.Ok? ==> forall t :: t in r.value.tables - at.tables ==> GetTable(bundle, t, scope).Ok?
      ensures r.Raise? ==> r.code == ObjectNotFound || r.code == NotAuthorized
      ensures DemandUsable(bundle, scope, d) ==> r.Ok?
    {
      var tables := at.tables + Elements(d.tables);
      var columns := at.columns;
      var relationships := at.relationships;
      if d.condition.Some? {
        var used := ColumnsIn(d.condition.value);
        columns := columns + used;
        tables := tables + TablesOf(used);
      }
      if d.relationship.Some? {
        relationships := relationships + {d.relationship.value};
        var rel :- GetRelationship(bundle, d.relationship.value, scope);
        tables := tables + {rel.leftTable, rel.rightTable};
        columns := columns + JoinKeys(rel.predicates);
      }
      assert Reached(tables, columns, relationships, at.slots) == Plus(at, DemandNeeds(bundle, d));
      assert columns - at.columns <= DemandNeeds(bundle, d).columns && tables - at.tables <= DemandNeeds(bundle, d).tables;
      if !ColumnsUsable(scope, columns - at.columns, UseInPredicate) {
        return Raise(NotAuthorized);
      }
      var added := SortedSet(tables - at.tables);
      for i := 0 to |added|
        invariant forall t :: t in added[..i] ==> GetTable(bundle, t, scope).Ok?
      {
        assert added[i] in added;
        assert added[i] in DemandNeeds(bundle, d).tables;
        var _ :- GetTable(bundle, added[i], scope);
        assert added[..i + 1] == added[..i] + [added[i]];
      }
      assert added[..|added|] == added;
      r := Ok(Reached(tables, columns, relationships, at.slots));
    }

    /** The loop body: one candidate's effect. */
    method Apply(scope: Scope, rule: Rule, at: Reached, l: Ledger, ghost seed: Seed) returns (r: Outcome<(Reached, Ledger)>)
      requires rule in bundle.rules && DistinctRules(bundle.rules)
      requires Sound(bundle, seed, at, l) && ActiveFrom(bundle, seed, rule, at) && Reauthorized(bundle, scope, seed, at)
      ensures r.Ok? ==>
                var (at', l') := r.value;
                && at' == Plus(at, Needs(bundle, rule))
                && Sound(bundle, seed, at', l') && Recorded(rule, l') && Grows(l, l')
                && Reauthorized(bundle, scope, seed, at')
      ensures r.Raise? ==> r.code == ObjectNotFound || r.code == NotAuthorized
      ensures (DemandOf(rule).Some? ==> DemandUsable(bundle, scope, DemandOf(rule).value)) ==> r.Ok?
    {
      hide Sound, Reauthorized, ActiveFrom, DistinctRules, Grows, DemandNeeds, DemandUsable;
      GrowsRefl(l);
      match rule.effect
      case SetSlot(slot, value) =>
        if slot !in l.slots && value.Some? {
          SlotSet(bundle, scope, seed, rule, at, l);
          return Ok((Plus(at, Needs(bundle, rule)),
                     l.(slots := l.slots[slot := value.value], applied := l.applied[rule.ref := rule])));
        }
        SlotLeft(bundle, seed, rule, at, l);
        return Ok((at, l));
      case PreferRelationship =>
        PlusNothing(at);
        Marked(bundle, seed, rule, at, l);
        return Ok((at, l.(applied := l.applied[rule.ref := rule])));
      case RequireSemijoin =>
        PlusNothing(at);
        Marked(bundle, seed, rule, at, l);
        if rule.ref !in l.requirements {
          return Ok((at, l.(applied := l.applied[rule.ref := rule], requirements := l.requirements + [rule.ref])));
        }
        return Ok((at, l));
      case _ =>
        var d := DemandOf(rule).value;
        var at' :- PullIn(scope, at, d);
        Obliged(bundle, scope, seed, rule, at, at', l);
        return Ok((at', l.(obligations := l.obligations[rule.ref := Obligation(rule.ref, d)],
                           applied := l.applied[rule.ref := rule])));
    }

    /** One round: the candidates of the state as it stood, applied one after the other. */
    method RunRound(scope: Scope, at: Reached, l: Ledger, seed: Seed) returns (r: Outcome<(Reached, Ledger)>)
      requires Valid()
      requires Within(Start(seed), at) && Sound(bundle, seed, at, l) && Reauthorized(bundle, scope, seed, at)
      ensures r.Ok? ==>
                var (at', l') := r.value;
                && at' == Round(bundle, seed, at)
                && Sound(bundle, seed, at', l') && Grows(l, l') && Reauthorized(bundle, scope, seed, at')
                && AllRecorded(bundle, seed, at, l')
      ensures r.Raise? ==> r.code == ObjectNotFound || r.code == NotAuthorized
      ensures Unobstructed(bundle, scope, seed) ==> r.Ok?
    {
      hide Sound, Reauthorized, Grows, Active, ActiveFrom, Recorded, Needs, Within, DemandUsable;
      ReachedArePublished(bundle, scope, seed, at);
      var candidates :- Candidates(seed, at);
      var at', l' := at, l;
      GrowsRefl(l);
      PlusNothing(at);
      WithinRefl(at);
      for i := 0 to |candidates|
        invariant at' == Plus(at, AllNeeds(bundle, candidates[..i])) && Within(at, at')
        invariant Sound(bundle, seed, at', l') && Grows(l, l') && Reauthorized(bundle, scope, seed, at')
        invariant forall q :: q in candidates[..i] ==> Recorded(q, l')
      {
        var rule := candidates[i];
        ActiveIsMonotone(bundle, seed, rule, at, at');
        var step :- Apply(scope, rule, at', l', seed);
        var at2, l2 := step.0, step.1;
        SumAppends(bundle, candidates[..i], rule);
        assert candidates[..i + 1] == candidates[..i] + [rule];
        PlusAssociates(at, AllNeeds(bundle, candidates[..i]), Needs(bundle, rule));
        WithinPlus(at, at', Needs(bundle, rule));
        GrowsTrans(l, l', l2);
        forall q | q in candidates[..i]
          ensures Recorded(q, l2)
        {
          RecordedLater(q, l', l2);
        }
        at', l' := at2, l2;
      }
      assert candidates[..|candidates|] == candidates;
      SumIgnoresOrder(bundle, candidates, ActiveRules(bundle, seed, bundle.rules, at));
      r := Ok((at', l'));
    }

    method Close(seed: Seed, scope: Scope) returns (r: Outcome<ClosureResult>)
      requires Valid()
      // The result is the least state above the seed that is closed under the active rules' effects.
      ensures r.Ok? ==>
                && Closed(bundle, seed, r.value.reached)
                && forall other :: Closed(bundle, seed, other) ==> Within(r.value.reached, other)
      // The obligations are exactly the demands of the active mandatory rules, in order of reference.
      ensures r.Ok? ==> ObligationsExact(bundle, seed, r.value)
      ensures r.Ok? ==> RefsApplied(bundle, seed, r.value)
      ensures r.Ok? ==> forall s :: s in seed.slots ==> s in r.value.slots && r.value.slots[s] == seed.slots[s]
      // No rule brings in what the principal may not use.
      ensures r.Ok? ==> Reauthorized(bundle, scope, seed, r.value.reached)
      // Rounds: one more than the rounds that change something, so at most one more than the rules.
      ensures r.Ok? ==>
                && 1 <= r.value.rounds <= MAX_CLOSURE_ROUNDS && r.value.rounds <= |bundle.rules| + 1
                && r.value.reached == After(bundle, seed, r.value.rounds - 1) == After(bundle, seed, r.value.rounds)
      // The cap is hit only when eight rounds in a row change something; conflicts are never reported.
      ensures r == Raise(RuleClosureNotConverged) ==>
                && |bundle.rules| >= MAX_CLOSURE_ROUNDS
                && forall i :: 0 <= i < MAX_CLOSURE_ROUNDS ==> After(bundle, seed, i + 1) != After(bundle, seed, i)
      ensures r.Raise? ==> r.code in {ObjectNotFound, NotAuthorized, RuleClosureNotConverged}
      // Whatever the principal may use, and when nothing is refused exactly then.
      ensures Restless(bundle, seed) ==> r.Raise?
      ensures Unobstructed(bundle, scope, seed) ==> (r == Raise(RuleClosureNotConverged) <==> Restless(bundle, seed))
      ensures Unobstructed(bundle, scope, seed) ==> (r.Ok? <==> !Restless(bundle, seed))
    {
      hide Sound, Reauthorized, Within, Closed, ObligationsExact, RefsApplied, After, Start, AllRecorded, Conflicting, Unobstructed;
      var limit :- Converge(seed, scope);
      var (at, l, rounds) := limit;
      ghost var k := rounds - 1;
      var conflict := DetectConflicts(l);
      NeverConflicting(bundle, seed, at, l);
      if conflict.Raise? {
        return Raise(RuleConflict);
      }
      LimitIsLeast(bundle, seed, k);
      var result := Finish(bundle, seed, at, l, rounds);
      FinalLedger(bundle, seed, at, l, result);
      SeedSlotsKept(bundle, seed, at, l);
      r := Ok(result);
    }

    /** The loop: rounds until one changes nothing. */
    method Converge(seed: Seed, scope: Scope) returns (r: Outcome<(Reached, Ledger, nat)>)
      requires Valid()
      ensures r.Ok? ==> Limit(bundle, scope, seed, r.value.0, r.value.1, r.value.2)
      ensures r == Raise(RuleClosureNotConverged) ==> Restless(bundle, seed)
      ensures r.Raise? ==> r.code in {ObjectNotFound, NotAuthorized, RuleClosureNotConverged}
      ensures Unobstructed(bundle, scope, seed) && r.Raise? ==> r.code == RuleClosureNotConverged
    {
      hide Sound, Reauthorized, Grows, Within, Start, Round, AllRecorded, Going, Limit, Restless, Unobstructed;
      var at, l := Start(seed), Ledger(seed.slots, map[], map[], []);
      GoingStarts(bundle, scope, seed);
      var rounds := 0;
      while rounds < MAX_CLOSURE_ROUNDS
        invariant 0 <= rounds <= MAX_CLOSURE_ROUNDS && Going(bundle, scope, seed, at, l, rounds)
      {
        var before := at;
        ghost var earlier := l;
        GoingIsSound(bundle, scope, seed, at, l, rounds);
        rounds := rounds + 1;
        var step :- RunRound(scope, at, l, seed);
        at, l := step.0, step.1;
        GoingOn(bundle, scope, seed, before, earlier, at, l, rounds);
        if before == at {
          return Ok((at, l, rounds));
        }
      }
      NeverSettled(bundle, scope, seed, at, l);
      r := Raise(RuleClosureNotConverged);
    }
  }

  /** The state and ledger of a round that changed nothing. */
  ghost predicate Limit(bundle: Bundle, scope: Scope, seed: Seed, at: Reached, l: Ledger, rounds: nat) {
    && 1 <= rounds <= MAX_CLOSURE_ROUNDS && rounds <= |bundle.rules| + 1
    && at == After(bundle, seed, rounds - 1) == After(bundle, seed, rounds)
    && Sound(bundle, seed, at, l) && Reauthorized(bundle, scope, seed, at)
    && AllRecorded(bundle, seed, Start(seed), l) && AllRecorded(bundle, seed, at, l)
  }

  /** Eight rounds in a row change something. */
  ghost predicate Restless(bundle: Bundle, seed: Seed) {
    && |bundle.rules| >= MAX_CLOSURE_ROUNDS
    && forall i :: 0 <= i < MAX_CLOSURE_ROUNDS ==> After(bundle, seed, i + 1) != After(bundle, seed, i)
  }

  /** The loop after some rounds, each of which changed something. */
  ghost predicate Going(bundle: Bundle, scope: Scope, seed: Seed, at: Reached, l: Ledger, rounds: nat) {
    && at == After(bundle, seed, rounds) && Within(Start(seed), at)
    && Sound(bundle, seed, at, l) && Reauthorized(bundle, scope, seed, at)
    && (forall i :: 0 <= i < rounds ==> After(bundle, seed, i + 1) != After(bundle, seed, i))
    && (rounds > 0 ==> AllRecorded(bundle, seed, Start(seed), l))
  }

  lemma GoingStarts(bundle: Bundle, scope: Scope, seed: Seed)
    ensures Going(bundle, scope, seed, Start(seed), Ledger(seed.slots, map[], map[], []), 0)
  {
    hide Sound, Reauthorized, AllRecorded, Within, Round;
    LedgerStarts(bundle, scope, seed);
  }

  lemma GoingIsSound(bundle: Bundle, scope: Scope, seed: Seed, at: Reached, l: Ledger, rounds: nat)
    requires Going(bundle, scope, seed, at, l, rounds)
    ensures Within(Start(seed), at) && Sound(bundle, seed, at, l) && Reauthorized(bundle, scope, seed, at)
  {
    hide Sound, Reauthorized, AllRecorded, Within, Round;
  }

  /** A round either changes something or reaches the limit. */
  lemma GoingOn(bundle: Bundle, scope: Scope, seed: Seed, before: Reached, earlier: Ledger, at: Reached, l: Ledger, rounds: nat)
    requires 1 <= rounds <= MAX_CLOSURE_ROUNDS && Going(bundle, scope, seed, before, earlier, rounds - 1)
    requires at == Round(bundle, seed, before) && Sound(bundle, seed, at, l) && Reauthorized(bundle, scope, seed, at)
    requires Grows(earlier, l) && AllRecorded(bundle, seed, before, l)
    ensures if before == at then Limit(bundle, scope, seed, at, l, rounds) else Going(bundle, scope, seed, at, l, rounds)
  {
    hide Sound, Reauthorized, AllRecorded, Within, Round, After, Start, Grows;
    AfterStep(bundle, seed, rounds - 1);
    RoundsGrow(bundle, seed, 0, rounds);
    RecordsStay(bundle, seed, Start(seed), earlier, l);
    if before == at {
      ChangesAreCounted(bundle, seed, rounds - 1);
    }
  }

  /** A chain of eight rules or more never settles within the cap, although it would. */
  lemma ChainIsRestless(bundle: Bundle, seed: Seed, tables: seq<TableId>)
    requires ChainRules(bundle.rules, tables) && seed.tables == {tables[0]} && |bundle.rules| >= MAX_CLOSURE_ROUNDS
    ensures Restless(bundle, seed)
    ensures exists k :: 0 <= k <= |bundle.rules| && After(bundle, seed, k + 1) == After(bundle, seed, k)
  {
    hide After, ChainRules;
    ChainChangesEveryRound(bundle, seed, tables);
    ConvergesWithinRules(bundle, seed);
  }

  lemma NeverSettled(bundle: Bundle, scope: Scope, seed: Seed, at: Reached, l: Ledger)
    requires Going(bundle, scope, seed, at, l, MAX_CLOSURE_ROUNDS)
    ensures Restless(bundle, seed)
  {
    hide Sound, Reauthorized, AllRecorded, Within, After;
    ChangesAreCounted(bundle, seed, MAX_CLOSURE_ROUNDS);
  }

  lemma AfterStep(bundle: Bundle, seed: Seed, n: nat)
    ensures After(bundle, seed, 0) == Start(seed)
    ensures After(bundle, seed, n + 1) == Round(bundle, seed, After(bundle, seed, n))
  {
  }

  lemma SeedSlotsKept(bundle: Bundle, seed: Seed, at: Reached, l: Ledger)
    requires Sound(bundle, seed, at, l)
    ensures forall s :: s in seed.slots ==> s in l.slots && l.slots[s] == seed.slots[s]
  {
  }

  ghost predicate AllRecorded(bundle: Bundle, seed: Seed, at: Reached, l: Ledger) {
    forall q :: q in bundle.rules && Active(bundle, seed, q, at) ==> Recorded(q, l)
  }

  /** Each active mandatory rule has its obligation, and there is no other. */
  ghost predicate ObligationsExact(bundle: Bundle, seed: Seed, result: ClosureResult) {
    && (forall i, j :: 0 <= i < j < |result.obligations| ==>
          StringLess(result.obligations[i].rule, result.obligations[j].rule))
    && (forall o :: o in result.obligations <==>
          exists q :: q in bundle.rules && DemandOf(q).Some? && ActiveFrom(bundle, seed, q, result.reached)
                      && o == Obligation(q.ref, DemandOf(q).value))
  }

  /** Every reference reported as applied is that of an active rule; defaults must have written their slot. */
  ghost predicate RefsApplied(bundle: Bundle, seed: Seed, result: ClosureResult) {
    && (forall q :: q in bundle.rules && !q.effect.SetSlot? ==>
          (q.ref in result.applied <==> ActiveFrom(bundle, seed, q, result.reached)))
    && (forall q :: q in bundle.rules && q.effect.SetSlot? && q.ref in result.applied ==>
          ActiveFrom(bundle, seed, q, result.reached) && FillsItsSlot(q, result.slots))
    && (forall ref :: ref in result.requirements <==>
          exists q :: q in bundle.rules && q.effect.RequireSemijoin? && q.ref == ref && ActiveFrom(bundle, seed, q, result.reached))
  }

  // -- steps of the loop ----------------------------------------------------------------------------

  lemma GrowsTrans(a: Ledger, b: Ledger, c: Ledger)
    requires Grows(a, b) && Grows(b, c)
    ensures Grows(a, c)
  {
  }

  lemma WithinRefl(a: Reached)
    ensures Within(a, a)
  {
  }

  lemma WithinPlus(a: Reached, b: Reached, c: Reached)
    requires Within(a, b)
    ensures Within(a, Plus(b, c))
  {
  }

  lemma PlusAssociates(a: Reached, b: Reached, c: Reached)
    ensures Plus(Plus(a, b), c) == Plus(a, Plus(b, c))
  {
    assert (a.tables + b.tables) + c.tables == a.tables + (b.tables + c.tables);
    assert (a.columns + b.columns) + c.columns == a.columns + (b.columns + c.columns);
    assert (a.relationships + b.relationships) + c.relationships == a.relationships + (b.relationships + c.relationships);
    assert (a.slots + b.slots) + c.slots == a.slots + (b.slots + c.slots);
  }

  lemma {:induction false} SumAppends(bundle: Bundle, rules: seq<Rule>, rule: Rule)
    ensures AllNeeds(bundle, rules + [rule]) == Plus(AllNeeds(bundle, rules), Needs(bundle, rule))
  {
    var longer := rules + [rule];
    SumHolds(bundle, rules);
    SumHolds(bundle, longer);
    assert forall r :: r in longer <==> r in rules || r == rule;
    SumIsLeast(bundle, longer, Plus(AllNeeds(bundle, rules), Needs(bundle, rule)));
    SumIsLeast(bundle, rules, AllNeeds(bundle, longer));
    assert rule in longer;
  }

  lemma RecordedLater(rule: Rule, a: Ledger, b: Ledger)
    requires Recorded(rule, a) && Grows(a, b)
    ensures Recorded(rule, b)
  {
  }

  lemma RecordsStay(bundle: Bundle, seed: Seed, at: Reached, a: Ledger, b: Ledger)
    requires Grows(a, b)
    ensures AllRecorded(bundle, seed, at, a) ==> AllRecorded(bundle, seed, at, b)
  {
    if AllRecorded(bundle, seed, at, a) {
      forall q | q in bundle.rules && Active(bundle, seed, q, at)
        ensures Recorded(q, b)
      {
        RecordedLater(q, a, b);
      }
    }
  }

  lemma LedgerStarts(bundle: Bundle, scope: Scope, seed: Seed)
    ensures var l := Ledger(seed.slots, map[], map[], []);
            && Sound(bundle, seed, Start(seed), l) && Reauthorized(bundle, scope, seed, Start(seed))
            && Within(Start(seed), Start(seed)) && After(bundle, seed, 0) == Start(seed)
  {
  }

  // -- finishing ----------------------------------------------------------------------------------------

  /** Two applied defaults that write the same slot with different values. */
  ghost predicate Conflicting(l: Ledger) {
    exists a, b :: a in l.applied && b in l.applied && Writes(l.applied[a]) && Writes(l.applied[b])
      && l.applied[a].effect.slot == l.applied[b].effect.slot && Written(l.applied[a]) != Written(l.applied[b])
  }

  predicate Writes(rule: Rule) {
    rule.effect.SetSlot? && rule.effect.slot != ""
  }

  function Written(rule: Rule): string {
    if rule.effect.SetSlot? && rule.effect.slotValue.Some? then rule.effect.slotValue.value else ""
  }

  method DetectConflicts(l: Ledger) returns (r: Outcome<()>)
    ensures r.Raise? <==> Conflicting(l)
    ensures r.Raise? ==> r.code == RuleConflict
  {
    var writers: map<string, string> := map[];
    var left := l.applied.Keys;
    while left != {}
      invariant left <= l.applied.Keys
      invariant forall ref :: ref in l.applied && ref !in left && Writes(l.applied[ref]) ==>
                  var slot := l.applied[ref].effect.slot; slot in writers && writers[slot] == Written(l.applied[ref])
      invariant forall slot :: slot in writers ==>
                  exists ref :: ref in l.applied && Writes(l.applied[ref]) && l.applied[ref].effect.slot == slot
                                && writers[slot] == Written(l.applied[ref])
      decreases left
    {
      var ref :| ref in left;
      var rule := l.applied[ref];
      if Writes(rule) {
        if rule.effect.slot in writers && writers[rule.effect.slot] != Written(rule) {
          return Raise(RuleConflict);
        }
        writers := writers[rule.effect.slot := Written(rule)];
      }
      left := left - {ref};
    }
    r := Ok(());
  }

  /** A second default never writes a slot that has a value, so conflicts cannot arise. */
  lemma NeverConflicting(bundle: Bundle, seed: Seed, at: Reached, l: Ledger)
    requires Sound(bundle, seed, at, l)
    ensures !Conflicting(l)
  {
  }

  method Finish(bundle: Bundle, seed: Seed, at: Reached, l: Ledger, rounds: nat) returns (result: ClosureResult)
    requires Sound(bundle, seed, at, l)
    ensures result.reached == at && result.slots == l.slots && result.rounds == rounds && result.requirements == l.requirements
    ensures forall ref :: ref in result.applied <==> ref in l.applied
    ensures forall o :: o in result.obligations <==> o.rule in l.obligations && l.obligations[o.rule] == o
    ensures forall i, j :: 0 <= i < j < |result.obligations| ==>
              StringLess(result.obligations[i].rule, result.obligations[j].rule)
  {
    var refs := SortedSet(l.obligations.Keys);
    var obligations := [];
    for i := 0 to |refs|
      invariant |obligations| == i
      invariant forall n :: 0 <= n < i ==> obligations[n] == l.obligations[refs[n]]
    {
      obligations := obligations + [l.obligations[refs[i]]];
    }
    forall o
      ensures o in obligations <==> o.rule in l.obligations && l.obligations[o.rule] == o
    {
      if o in obligations {
        var n :| 0 <= n < |obligations| && obligations[n] == o;
        assert refs[n] in l.obligations;
      }
      if o.rule in l.obligations && l.obligations[o.rule] == o {
        var n :| 0 <= n < |refs| && refs[n] == o.rule;
        assert obligations[n] == o;
      }
    }
    var applied := SortedSet(l.applied.Keys);
    result := ClosureResult(at, obligations, l.slots, applied, rounds, l.requirements);
  }

  /** A rule active from the seed was a candidate in the first round or in the last one. */
  lemma ActiveIsRecorded(bundle: Bundle, seed: Seed, at: Reached, l: Ledger, q: Rule)
    requires AllRecorded(bundle, seed, Start(seed), l) && AllRecorded(bundle, seed, at, l)
    requires q in bundle.rules && ActiveFrom(bundle, seed, q, at)
    ensures Recorded(q, l)
  {
    if q.activation.SlotUnset? {
      assert Active(bundle, seed, q, Start(seed));
    }
  }

  lemma FinalLedger(bundle: Bundle, seed: Seed, at: Reached, l: Ledger, result: ClosureResult)
    requires DistinctRules(bundle.rules) && Sound(bundle, seed, at, l)
    requires AllRecorded(bundle, seed, Start(seed), l) && AllRecorded(bundle, seed, at, l)
    requires result.reached == at && result.slots == l.slots && result.requirements == l.requirements
    requires forall ref :: ref in result.applied <==> ref in l.applied
    requires forall o :: o in result.obligations <==> o.rule in l.obligations && l.obligations[o.rule] == o
    requires forall i, j :: 0 <= i < j < |result.obligations| ==>
               StringLess(result.obligations[i].rule, result.obligations[j].rule)
    ensures ObligationsExact(bundle, seed, result) && RefsApplied(bundle, seed, result)
  {
    hide ActiveFrom, AllRecorded;
    forall q | q in bundle.rules && ActiveFrom(bundle, seed, q, at)
      ensures Recorded(q, l)
    {
      ActiveIsRecorded(bundle, seed, at, l, q);
    }
  }

  lemma GrowsRefl(l: Ledger)
    ensures Grows(l, l)
  {
  }

  lemma PlusNothing(at: Reached)
    ensures Plus(at, Nothing) == at
  {
  }

  /** Recording a candidate without a demand or a slot. */
  lemma Marked(bundle: Bundle, seed: Seed, rule: Rule, at: Reached, l: Ledger)
    requires rule in bundle.rules && DistinctRules(bundle.rules)
    requires Sound(bundle, seed, at, l) && ActiveFrom(bundle, seed, rule, at)
    requires rule.effect.PreferRelationship? || rule.effect.RequireSemijoin?
    ensures var l' := l.(applied := l.applied[rule.ref := rule]);
            Sound(bundle, seed, at, l') && Grows(l, l')
    ensures rule.effect.RequireSemijoin? ==>
              var l' := l.(applied := l.applied[rule.ref := rule], requirements := l.requirements + [rule.ref]);
              Sound(bundle, seed, at, l') && Grows(l, l')
  {
    assert rule.ref in l.applied ==> l.applied[rule.ref] == rule;
  }

  lemma Obliged(bundle: Bundle, scope: Scope, seed: Seed, rule: Rule, at: Reached, at': Reached, l: Ledger)
    requires rule in bundle.rules && DistinctRules(bundle.rules) && DemandOf(rule).Some?
    requires Sound(bundle, seed, at, l) && ActiveFrom(bundle, seed, rule, at) && Reauthorized(bundle, scope, seed, at)
    requires Within(at, at') && at'.slots == at.slots
    requires ColumnsUsable(scope, at'.columns - at.columns, UseInPredicate)
    requires forall t :: t in at'.tables - at.tables ==> GetTable(bundle, t, scope).Ok?
    ensures var l' := l.(obligations := l.obligations[rule.ref := Obligation(rule.ref, DemandOf(rule).value)],
                         applied := l.applied[rule.ref := rule]);
            Sound(bundle, seed, at', l') && Grows(l, l') && Reauthorized(bundle, scope, seed, at')
  {
    assert rule.ref in l.applied ==> l.applied[rule.ref] == rule;
    SoundLater(bundle, seed, at, at', l);
    ActiveFromIsMonotone(bundle, seed, rule, at, at');
  }

  /** A default fills an unset slot only, so no earlier slot value changes. */
  lemma SlotSet(bundle: Bundle, scope: Scope, seed: Seed, rule: Rule, at: Reached, l: Ledger)
    requires rule in bundle.rules && DistinctRules(bundle.rules)
    requires Sound(bundle, seed, at, l) && ActiveFrom(bundle, seed, rule, at) && Reauthorized(bundle, scope, seed, at)
    requires rule.effect.SetSlot? && rule.effect.slotValue.Some? && rule.effect.slot !in l.slots
    ensures var l' := l.(slots := l.slots[rule.effect.slot := rule.effect.slotValue.value],
                         applied := l.applied[rule.ref := rule]);
            var at' := Plus(at, Needs(bundle, rule));
            Sound(bundle, seed, at', l') && Recorded(rule, l') && Grows(l, l') && Reauthorized(bundle, scope, seed, at')
  {
    var at' := Plus(at, Needs(bundle, rule));
    assert at'.tables == at.tables && at'.columns == at.columns;
    forall ref | ref in l.applied
      ensures ActiveFrom(bundle, seed, l.applied[ref], at')
    {
      ActiveFromIsMonotone(bundle, seed, l.applied[ref], at, at');
    }
    ActiveFromIsMonotone(bundle, seed, rule, at, at');
  }

  /** A slot that has a value, or a default without one, is left alone. */
  lemma SlotLeft(bundle: Bundle, seed: Seed, rule: Rule, at: Reached, l: Ledger)
    requires Sound(bundle, seed, at, l) && rule.effect.SetSlot?
    requires rule.effect.slot in l.slots || rule.effect.slotValue.None?
    ensures Plus(at, Needs(bundle, rule)) == at && Recorded(rule, l)
  {
    PlusNothing(at);
    if rule.effect.slotValue.Some? {
      assert at.slots + {rule.effect.slot} == at.slots;
    }
  }

  function KindOf(a: Activation): nat {
    match a
    case Always => 0
    case ScanTagged(_) => 1
    case ContainsEntity(_) => 2
    case UsesTable(_) => 3
    case UsesColumn(_) => 4
    case UsesMetric(_) => 5
    case SlotUnset(_) => 6
  }

  function IndexOf(xs: seq<nat>, x: nat): (i: nat)
    ensures i <= |xs| && (i < |xs| ==> xs[i] == x) && (i == |xs| <==> x !in xs)
  {
    if xs == [] then 0 else if xs[0] == x then 0 else 1 + IndexOf(xs[1..], x)
  }
}
