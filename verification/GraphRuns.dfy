/**
  Whole runs of the workflow graph: every run ends, every decision has its edge, the budgets'
  last-resort branches are never taken, and what was settled with the user survives to execution.
*/
module GraphRuns {
  import opened Errors
  import opened Catalog
  import opened Plans
  import opened Emissions
  import opened Binder
  import opened Attestations
  import opened Results
  import opened Clarification
  import opened Repairs
  import opened Graph

  /** What the user chose, and what was offered. */
  datatype Settlement = Settlement(offered: seq<string>, value: string)

  /**
    The graph between two nodes: the node to run, the state, the artifact store, and as history
    the user's choices by slot and the proposal that first went to binding.
  */
  datatype Config = Config(
    node: Node,
    state: State,
    store: map<nat, Artifact>,
    chosen: map<string, Settlement>,
    settled: Option<Request>)

  const Start: Config := Config(Admit, Fresh, map[], map[], None)

  function Follow(node: Node, s: State): Node
    requires !node.End? && !node.Fault?
  {
    match EdgeTable()[node]
    case Unconditional(to) => to
    case ByDecision(table) => if s.decision in table then table[s.decision] else Fault
    case ByRoute(table) => if s.route in table then table[s.route] else Fault
  }

  /** A node that can run: it has what it reads. */
  predicate Able(c: Config) {
    && !c.node.End? && !c.node.Fault?
    && (c.node.Clarify? ==> c.state.clarification.Some?)
    && (c.node in {Clarify, Repair, BindCompile} ==> c.state.proposal.Some?)
    && (c.node.Execute? && c.state.revision in c.store ==> JoinsHavePredicates(c.store[c.state.revision].logical.joins))
  }

  /** The state a node leaves. */
  function Run(w: World, c: Config, u: Supply): State
    requires Able(c)
  {
    match c.node
    case Admit => AfterAdmit(c.state, u)
    case Understand => AfterUnderstand(c.state, u)
    case Retrieve => AfterRetrieve(c.state, u)
    case Expand => AfterExpand(c.state)
    case Propose => AfterPropose(w, c.state, u)
    case Clarify => AfterClarify(w, c.state, u)
    case Repair => AfterRepair(c.state)
    case BindCompile => AfterBind(w, c.state, u.pipeline)
    case Execute => AfterExecute(w, c.state, c.store, u.warehouse)
    case Definition => AfterDefinition(c.state, u)
    case Metadata => AfterMetadata(c.state)
    case Stop => AfterStop(c.state)
  }

  function Chosen(c: Config, next: State): map<string, Settlement>
    requires Able(c)
  {
    if c.node.Clarify? && next.decision == "resumed" && next.answered.Some? then
      c.chosen[next.answered.value.slot := Settlement(ValuesOf(c.state.clarification.value.options), next.answered.value.value)]
    else c.chosen
  }

  function Step(w: World, c: Config, u: Supply): Config
    requires Able(c)
  {
    var next := Run(w, c, u);
    var to := Follow(c.node, next);
    Config(to, next,
           if c.node.BindCompile? then StoreAfter(c.store, c.state.revision, u.pipeline) else c.store,
           Chosen(c, next),
           if c.node.Propose? && to.BindCompile? then next.proposal else c.settled)
  }

  /** The understander names a route, the pipeline reports on the proposal it was given, and the warehouse only arranges rows. */
  ghost predicate Admissible(w: World, c: Config, u: Supply) {
    && (u.understood.Some? ==> u.understood.value.0 in Routes)
    && (c.node.BindCompile? && c.state.proposal.Some? ==> PipelineFor(w, c.state.proposal.value, u.pipeline))
    && (c.node.Execute? ==> Arranging(u.warehouse))
  }

  // -- what every reachable configuration satisfies ------------------------------------------------

  /** Each clarified slot holds, in the proposal, an option that was offered for it. */
  predicate Kept(w: World, c: Config) {
    && c.chosen.Keys == Asked(c.state) && c.chosen.Keys <= Slots
    && (c.state.answered.Some? <==> c.state.clarified != []) && (c.state.answered.Some? ==> c.state.proposal.Some?)
    && forall slot :: slot in c.chosen ==>
         && c.chosen[slot].value in c.chosen[slot].offered
         && c.state.proposal.Some? && Holding(w.period, c.state.proposal.value, slot, c.chosen[slot].value)
  }

  /** The proposal differs from the settled one by dropped sort keys at most, and then has only known ones. */
  predicate OnlySortKeysDropped(w: World, c: Config) {
    && c.settled.Some? && c.state.proposal.Some?
    && (c.state.repairs == 0 ==> c.state.proposal == c.settled)
    && (c.state.repairs > 0 ==>
          && var columns := ExpectedColumns(w.bundle, c.settled.value);
             c.state.proposal == Some(c.settled.value.(orderBy := KeepNamed(c.settled.value.orderBy, columns))))
  }

  predicate Bounded(c: Config) {
    && c.state.repairs <= 1 && c.state.revision == c.state.repairs + 1
    && (forall k :: k in c.store ==> k <= c.state.revision)
    && (c.node in {Admit, Understand, Retrieve, Expand, Propose, Clarify} ==> c.state.repairs == 0)
    && (c.state.answered.None? ==>
          match c.node
          case Admit => c.state.rounds == 0
          case Understand => c.state.rounds == 0
          case Retrieve => c.state.rounds <= MAX_RETRIEVAL_ROUNDS
          case Propose => 1 <= c.state.rounds <= MAX_RETRIEVAL_ROUNDS + 1
          case Expand => 1 <= c.state.rounds <= MAX_RETRIEVAL_ROUNDS
          case _ => true)
  }

  ghost predicate AtNode(w: World, c: Config) {
    match c.node
    case Clarify => c.state.clarification.Some? && c.state.proposal.Some? && Askable(c.state.clarification.value, Asked(c.state))
    case BindCompile => OnlySortKeysDropped(w, c)
    case Repair =>
      && OnlySortKeysDropped(w, c) && c.state.columns == ExpectedColumns(w.bundle, c.state.proposal.value)
      && exists code :: code in c.state.codes && code in Repairable
    case Execute =>
      && OnlySortKeysDropped(w, c) && c.state.revision in c.store
      && CompiledFor(w, c.state.proposal.value, c.store[c.state.revision])
    case Expand => c.state.answered.None?
    case End => c.state.answer.Some?
    case Fault => false
    case _ => true
  }

  ghost predicate Inv(w: World, c: Config) {
    Kept(w, c) && Bounded(c) && AtNode(w, c)
  }

  lemma InvIsAble(w: World, c: Config)
    requires Inv(w, c)
    ensures Over(c) || Able(c)
  {
    hide CompiledFor, Kept, Bounded;
    if c.node.Execute? {
      StoredAtExecute(w, c);
    }
  }

  lemma StartIsFine(w: World)
    ensures Inv(w, Start)
  {
    hide CompiledFor;
  }

  /** A node without a successor: the run is over. */
  predicate Over(c: Config) {
    c.node.End?
  }

  // -- where decisions lead ---------------------------------------------------------------------------

  lemma ProposeEdges(s: State)
    ensures s.decision == "ready" ==> Follow(Propose, s) == BindCompile
    ensures s.decision == "expand" ==> Follow(Propose, s) == Expand
    ensures s.decision == "clarify" ==> Follow(Propose, s) == Clarify
    ensures s.decision == "blocked" ==> Follow(Propose, s) == Stop
  {
  }

  lemma ClarifyEdges(s: State)
    ensures s.decision == "resumed" ==> Follow(Clarify, s) == Admit
    ensures s.decision == "blocked" ==> Follow(Clarify, s) == Stop && s.decision != "resumed"
  {
  }

  lemma RepairEdges(s: State)
    ensures s.decision == "ready" ==> Follow(Repair, s) == BindCompile
    ensures s.decision == "blocked" ==> Follow(Repair, s) == Stop
  {
  }

  lemma BindEdges(s: State)
    ensures s.decision == "ready" ==> Follow(BindCompile, s) == Execute
    ensures s.decision == "repairable" ==> Follow(BindCompile, s) == Repair
    ensures s.decision == "blocked" ==> Follow(BindCompile, s) == Stop
  {
  }

  lemma EntryEdges(s: State)
    ensures s.decision == "allowed" ==> Follow(Admit, s) == Understand
    ensures s.decision == "denied" ==> Follow(Admit, s) == Stop
    ensures s.route in Routes ==> Follow(Understand, s) in {Retrieve, Definition, Metadata, Stop}
  {
    assert s.route in Routes ==>
             s.route == "sql" || s.route == "definition" || s.route == "metadata" || s.route == "clarify"
             || s.route == "unsupported" || s.route == "denied";
  }

  lemma RetrievalEdges(s: State)
    ensures s.decision == "ready" || s.decision == "empty" ==> Follow(Retrieve, s) == Propose
    ensures s.decision == "ready" ==> Follow(Expand, s) == Retrieve
    ensures s.decision == "blocked" ==> Follow(Expand, s) == Stop
  {
  }

  lemma LastEdges(s: State)
    ensures s.decision == "answered" ==> Follow(Execute, s) == Follow(Definition, s) == Follow(Metadata, s) == End
    ensures s.decision == "blocked" ==> Follow(Execute, s) == Follow(Definition, s) == Stop
    ensures Follow(Stop, s) == End
  {
  }

  // -- one step keeps it ------------------------------------------------------------------------------

  /** The proposal and the answers are left alone. */
  predicate SameAnswers(c: Config, next: Config) {
    && next.state.proposal == c.state.proposal && next.state.answered == c.state.answered && next.state.clarified == c.state.clarified
    && next.chosen == c.chosen
  }

  /** So are the repairs, the store and what was settled. */
  predicate Untouched(c: Config, next: Config) {
    && SameAnswers(c, next)
    && next.state.repairs == c.state.repairs && next.state.revision == c.state.revision
    && next.store == c.store && next.settled == c.settled
  }

  lemma KeptWhenUntouched(w: World, c: Config, next: Config)
    requires Kept(w, c) && SameAnswers(c, next)
    ensures Kept(w, next) && Asked(next.state) == Asked(c.state) && Settled(next.state) == Settled(c.state)
  {
    hide Holding;
  }

  lemma SortKeysDoNotMatter(b: Bundle, a: Request, orderBy: seq<SortKey>)
    ensures ExpectedColumns(b, a.(orderBy := orderBy)) == ExpectedColumns(b, a)
  {
  }

  /** Asking next or binding next leaves the proposal's slots as they are. */
  lemma ProposeStep(w: World, c: Config, u: Supply)
    requires Inv(w, c) && Able(c) && c.node.Propose?
    ensures Inv(w, Step(w, c, u)) && Step(w, c, u).node in {BindCompile, Expand, Clarify, Stop}
    ensures Step(w, c, u).node.Expand? ==> !Settled(c.state) && c.state.rounds <= MAX_RETRIEVAL_ROUNDS
    ensures Asked(Step(w, c, u).state) == Asked(c.state) && Step(w, c, u).state.rounds == c.state.rounds
    ensures Step(w, c, u).state.repairs == 0
  {
    hide CompiledFor, Detect, ExpectedColumns, Askable, Holding, Follow, EdgeTable;
    var s := c.state;
    ProposeEdges(AfterPropose(w, s, u));
    if Settled(s) {
      QuestionsAreAskable(w.bundle, w.scope, s.proposal.value, s.candidates, s.exact, Asked(s));
    } else if u.proposed.Ok? && u.proposed.value.Some? {
      QuestionsAreAskable(w.bundle, w.scope, u.proposed.value.value, s.candidates, s.exact, Asked(s));
      assert s.answered.None? && c.chosen.Keys == {};
    }
  }

  lemma ClarifyStep(w: World, c: Config, u: Supply)
    requires Inv(w, c) && Able(c) && c.node.Clarify?
    ensures Inv(w, Step(w, c, u)) && Step(w, c, u).node in {Admit, Stop}
    ensures Step(w, c, u).node.Admit? ==>
              && Asked(Step(w, c, u).state) == Asked(c.state) + {c.state.clarification.value.slot}
              && c.state.clarification.value.slot in Slots - Asked(c.state) && Settled(Step(w, c, u).state)
    ensures Step(w, c, u).node.Stop? ==> Asked(Step(w, c, u).state) == Asked(c.state)
  {
    hide CompiledFor, Kept, ValidateAnswer, AfterExecute, AfterBind, AfterRepair, AfterPropose, Follow, EdgeTable, ApplyAnswer, Askable;
    ClarifyEdges(AfterClarify(w, c.state, u));
    OnlyOfferedAnswers(u.payload, c.state.clarification.value);
    AskableSlot(c.state.clarification.value, Asked(c.state));
    if ValidateAnswer(u.payload, c.state.clarification.value).Ok? {
      AnswerKept(w, c, u);
    } else {
      KeptWhenUntouched(w, c, Step(w, c, u));
    }
  }

  lemma AskableSlot(q: Question, asked: set<string>)
    requires Askable(q, asked)
    ensures q.slot in Slots - asked
  {
  }

  /** An accepted answer joins the answers kept so far. */
  lemma AnswerKept(w: World, c: Config, u: Supply)
    requires Able(c) && c.node.Clarify? && Kept(w, c) && Askable(c.state.clarification.value, Asked(c.state))
    requires ValidateAnswer(u.payload, c.state.clarification.value).Ok?
    ensures Kept(w, Step(w, c, u)) && Settled(Step(w, c, u).state)
    ensures Asked(Step(w, c, u).state) == Asked(c.state) + {c.state.clarification.value.slot}
  {
    hide Holding, ValidateAnswer, AfterExecute, AfterBind, AfterRepair, AfterPropose, Follow, EdgeTable, ApplyAnswer;
    OnlyOfferedAnswers(u.payload, c.state.clarification.value);
    var s, a, next := c.state, ValidateAnswer(u.payload, c.state.clarification.value).value, Step(w, c, u);
    var r := ApplyAnswer(w.period, s.proposal.value, a.slot, a.value);
    assert next.state.proposal == Some(r) && next.state.clarified == s.clarified + [a.slot];
    AnswerSettlesOneSlot(w.period, s.proposal.value, a.slot, a.value, a.slot, a.value);
    forall slot | slot in next.chosen
      ensures next.chosen[slot].value in next.chosen[slot].offered
      ensures Holding(w.period, r, slot, next.chosen[slot].value)
    {
      if slot != a.slot {
        AnswerSettlesOneSlot(w.period, s.proposal.value, a.slot, a.value, slot, c.chosen[slot].value);
      }
    }
  }

  lemma SortKeysKeepSlots(period: string -> TimeRange, a: Request, orderBy: seq<SortKey>, slot: string, value: string)
    ensures Holding(period, a.(orderBy := orderBy), slot, value) <==> Holding(period, a, slot, value)
  {
  }

  /** A repair drops the unknown sort keys; a second one finds none. */
  lemma RepairStep(w: World, c: Config, u: Supply)
    requires Inv(w, c) && Able(c) && c.node.Repair?
    ensures Inv(w, Step(w, c, u)) && Step(w, c, u).node in {BindCompile, Stop}
    ensures Step(w, c, u).node.BindCompile? ==> c.state.repairs == 0 && Step(w, c, u).state.repairs == 1
    ensures Step(w, c, u).node.Stop? ==> Step(w, c, u).state.repairs == c.state.repairs
    ensures Asked(Step(w, c, u).state) == Asked(c.state)
  {
    hide CompiledFor, ExpectedColumns, Holding, ProposeRepair, KeepNamed, AfterExecute, AfterBind, AfterClarify, AfterPropose, Follow, EdgeTable;
    RepairEdges(AfterRepair(c.state));
    var s, before := c.state, c.settled.value;
    var request, codes := s.proposal.value, set code | code in s.codes;
    RepairOnlyDropsKeys(request, codes, s.columns);
    SortKeysDoNotMatter(w.bundle, before, request.orderBy);
    var next := Step(w, c, u);
    if ProposeRepair(request, codes, s.columns).value.Some? {
      var repaired := ProposeRepair(request, codes, s.columns).value.value;
      assert s.repairs == 0 && request == before;
      assert next.state.proposal == Some(repaired);
      forall slot | slot in next.chosen
        ensures Holding(w.period, repaired, slot, next.chosen[slot].value)
      {
        SortKeysKeepSlots(w.period, request, repaired.orderBy, slot, next.chosen[slot].value);
      }
    }
  }

  lemma BindStep(w: World, c: Config, u: Supply)
    requires Inv(w, c) && Able(c) && c.node.BindCompile? && Admissible(w, c, u)
    ensures Inv(w, Step(w, c, u)) && Step(w, c, u).node in {Execute, Repair, Stop}
    ensures Step(w, c, u).state.repairs == c.state.repairs && Asked(Step(w, c, u).state) == Asked(c.state)
  {
    hide CompiledFor, ExpectedColumns, Kept, KeepNamed, AfterExecute, AfterClarify, AfterRepair, AfterPropose, Follow, EdgeTable;
    BindEdges(AfterBind(w, c.state, u.pipeline));
    KeptWhenUntouched(w, c, Step(w, c, u));
    var next := Step(w, c, u);
    assert next.state == AfterBind(w, c.state, u.pipeline);
    assert next.state.proposal == c.state.proposal;
    assert OnlySortKeysDropped(w, next);
  }

  /** Every admissible step from a reachable configuration keeps the invariant and follows an edge. */
  lemma StepKeepsInv(w: World, c: Config, u: Supply)
    requires Inv(w, c) && Able(c) && Admissible(w, c, u)
    ensures Inv(w, Step(w, c, u)) && !Step(w, c, u).node.Fault?
  {
    hide CompiledFor;
    match c.node
    case Propose => ProposeStep(w, c, u);
    case Clarify => ClarifyStep(w, c, u);
    case Repair => RepairStep(w, c, u);
    case BindCompile => BindStep(w, c, u);
    case Admit => EntryStep(w, c, u);
    case Understand => EntryStep(w, c, u);
    case Retrieve => RetrievalStep(w, c, u);
    case Expand => RetrievalStep(w, c, u);
    case Execute => ExecuteStep(w, c, u);
    case _ => LastStep(w, c, u);
  }

  lemma EntryStep(w: World, c: Config, u: Supply)
    requires Inv(w, c) && Able(c) && Admissible(w, c, u) && c.node in {Admit, Understand}
    ensures Inv(w, Step(w, c, u)) && Untouched(c, Step(w, c, u)) && Step(w, c, u).state.rounds == c.state.rounds
    ensures c.node.Admit? ==> Step(w, c, u).node in {Understand, Stop}
    ensures c.node.Understand? ==> Step(w, c, u).node in {Retrieve, Definition, Metadata, Stop}
  {
    hide CompiledFor, Kept, AfterExecute, AfterBind, AfterClarify, AfterRepair, AfterPropose, Follow, EdgeTable, Routes;
    KeptWhenUntouched(w, c, Step(w, c, u));
    EntryEdges(Run(w, c, u));
    KnownRoutes();
  }

  lemma KnownRoutes()
    ensures "unsupported" in Routes
  {
  }

  lemma RetrievalStep(w: World, c: Config, u: Supply)
    requires Inv(w, c) && Able(c) && c.node in {Retrieve, Expand}
    ensures Inv(w, Step(w, c, u)) && Untouched(c, Step(w, c, u))
    ensures c.node.Retrieve? ==> Step(w, c, u).node.Propose? && Step(w, c, u).state.rounds == c.state.rounds + 1
    ensures c.node.Expand? ==> Step(w, c, u).node.Retrieve? && Step(w, c, u).state.rounds == c.state.rounds
  {
    hide CompiledFor, Kept, AfterExecute, AfterBind, AfterClarify, AfterRepair, AfterPropose, Follow, EdgeTable;
    KeptWhenUntouched(w, c, Step(w, c, u));
    RetrievalEdges(Run(w, c, u));
  }

  lemma LastStep(w: World, c: Config, u: Supply)
    requires Inv(w, c) && Able(c) && c.node in {Definition, Metadata, Stop}
    ensures Inv(w, Step(w, c, u)) && Untouched(c, Step(w, c, u))
    ensures Step(w, c, u).node.End? || (Step(w, c, u).node.Stop? && c.node.Definition?)
  {
    hide CompiledFor, Kept, AfterExecute, AfterBind, AfterClarify, AfterRepair, AfterPropose, Follow, EdgeTable;
    KeptWhenUntouched(w, c, Step(w, c, u));
    LastEdges(Run(w, c, u));
  }

  lemma ExecuteStep(w: World, c: Config, u: Supply)
    requires Inv(w, c) && Able(c) && c.node.Execute?
    ensures Inv(w, Step(w, c, u)) && Untouched(c, Step(w, c, u)) && Step(w, c, u).node in {End, Stop}
  {
    hide CompiledFor, Kept, ExecuteArtifact, ResultPasses, AfterBind, AfterClarify, AfterRepair, AfterPropose, Follow, EdgeTable;
    KeptWhenUntouched(w, c, Step(w, c, u));
    LastEdges(Run(w, c, u));
  }

  // -- every run ends ------------------------------------------------------------------------------------

  /** An upper bound on the nodes still to run before the run ends or asks the user. */
  function Fuel(c: Config): nat {
    match c.node
    case Stop => 1
    case Metadata => 1
    case Definition => 2
    case Execute => 2
    case Clarify => 2
    case Repair => if c.state.repairs == 0 then 4 else 2
    case BindCompile => if c.state.repairs == 0 then 5 else 3
    case Propose => ProposeFuel(c.state)
    case Expand => 2 + ProposeFuel(c.state.(rounds := c.state.rounds + 1))
    case Retrieve => 1 + ProposeFuel(c.state.(rounds := c.state.rounds + 1))
    case Understand => 2 + ProposeFuel(c.state.(rounds := c.state.rounds + 1))
    case Admit => 3 + ProposeFuel(c.state.(rounds := c.state.rounds + 1))
    case _ => 0
  }

  function ProposeFuel(s: State): nat {
    if Settled(s) || s.rounds > MAX_RETRIEVAL_ROUNDS then 6 else 6 + 3 * (MAX_RETRIEVAL_ROUNDS + 1 - s.rounds)
  }

  /** The slots that may still be asked about. */
  function Unasked(c: Config): nat {
    |Slots - Asked(c.state)|
  }

  /** Asking about a slot is worth the nodes that run after its answer. */
  function Measure(c: Config): nat {
    Fuel(c) + 8 * Unasked(c)
  }

  /** Every step decreases the measure; without an answer from the user it decreases the fuel alone. */
  lemma StepDecreases(w: World, c: Config, u: Supply)
    requires Inv(w, c) && Able(c) && Admissible(w, c, u)
    ensures Measure(Step(w, c, u)) < Measure(c)
    ensures !c.node.Clarify? ==> Fuel(Step(w, c, u)) < Fuel(c)
  {
    hide Kept, AtNode, Asked, Run, Follow, Admissible, EdgeTable, Chosen;
    var next := Step(w, c, u);
    match c.node
    case Propose => ProposeStep(w, c, u);
    case Clarify =>
      ClarifyStep(w, c, u);
      if next.node.Admit? {
        var slot := c.state.clarification.value.slot;
        assert Slots - Asked(next.state) == (Slots - Asked(c.state)) - {slot};
      }
    case Repair => RepairStep(w, c, u);
    case BindCompile => BindStep(w, c, u);
    case Admit => EntryStep(w, c, u); KeptWhenUntouched(w, c, next);
    case Understand => EntryStep(w, c, u); KeptWhenUntouched(w, c, next);
    case Retrieve => RetrievalStep(w, c, u); KeptWhenUntouched(w, c, next);
    case Expand => RetrievalStep(w, c, u); KeptWhenUntouched(w, c, next);
    case Execute => ExecuteStep(w, c, u); KeptWhenUntouched(w, c, next);
    case _ => LastStep(w, c, u); KeptWhenUntouched(w, c, next);
  }

  /** The configurations of a run under a sequence of supplies, until it is over. */
  ghost predicate IsRun(w: World, run: seq<Config>, us: seq<Supply>) {
    && run != [] && run[0] == Start && |us| == |run| - 1
    && forall i :: 0 <= i < |us| ==> Advances(w, run[i], us[i], run[i + 1])
  }

  /** One admissible step from a configuration that is able to run. */
  ghost predicate Advances(w: World, c: Config, u: Supply, next: Config) {
    Able(c) && Admissible(w, c, u) && next == Step(w, c, u)
  }

  lemma {:induction false} RunsKeepInv(w: World, run: seq<Config>, us: seq<Supply>, i: nat)
    requires IsRun(w, run, us) && i < |run|
    ensures Inv(w, run[i]) && Measure(run[i]) + i <= Measure(Start)
  {
    hide Inv, Admissible, Step, Measure, Able;
    if i == 0 {
      StartIsFine(w);
    } else {
      RunsKeepInv(w, run, us, i - 1);
      assert Advances(w, run[i - 1], us[i - 1], run[i]);
      StepKeepsInv(w, run[i - 1], us[i - 1]);
      StepDecreases(w, run[i - 1], us[i - 1]);
    }
  }

  /** A run cannot get stuck: until it is over, every supply it may get leads on. */
  lemma RunsGoOn(w: World, run: seq<Config>, us: seq<Supply>, u: Supply)
    requires IsRun(w, run, us) && !Over(run[|run| - 1]) && Admissible(w, run[|run| - 1], u)
    ensures Able(run[|run| - 1]) && IsRun(w, run + [Step(w, run[|run| - 1], u)], us + [u])
  {
    hide Inv, Admissible, Step, Able;
    RunsKeepInv(w, run, us, |run| - 1);
    InvIsAble(w, run[|run| - 1]);
    var longer, more := run + [Step(w, run[|run| - 1], u)], us + [u];
    forall i | 0 <= i < |more|
      ensures Advances(w, longer[i], more[i], longer[i + 1])
    {
      if i < |us| {
        assert Advances(w, run[i], us[i], run[i + 1]);
      }
    }
  }

  /**
    Every run ends, within 39 nodes over at most three questions, and an ended run has an
    answer; no decision ever lacks an edge.
  */
  lemma EveryRunEnds(w: World, run: seq<Config>, us: seq<Supply>)
    requires IsRun(w, run, us)
    ensures |us| <= 39
    ensures forall i :: 0 <= i < |run| ==> !run[i].node.Fault? && (Over(run[i]) ==> run[i].state.answer.Some?)
  {
    hide Inv, Measure, Advances;
    RunsKeepInv(w, run, us, |run| - 1);
    StartMeasure();
    forall i | 0 <= i < |run|
      ensures !run[i].node.Fault? && (Over(run[i]) ==> run[i].state.answer.Some?)
    {
      RunsKeepInv(w, run, us, i);
      NoFault(w, run[i]);
    }
  }

  lemma NoFault(w: World, c: Config)
    requires Inv(w, c)
    ensures !c.node.Fault? && (Over(c) ==> c.state.answer.Some?)
  {
    hide CompiledFor, Kept, Bounded;
  }

  lemma StartMeasure()
    ensures Fuel(Start) == 15 && Measure(Start) == 39
  {
    assert Asked(Start.state) == {};
    assert Slots - {} == Slots;
    assert Slots == {METRIC} + {TIME_RANGE} + {TIME_GRAIN};
    assert METRIC != TIME_RANGE && METRIC != TIME_GRAIN && TIME_RANGE != TIME_GRAIN by {
      assert METRIC[0] == 'm' && TIME_RANGE[5] == 'r' && TIME_GRAIN[5] == 'g';
    }
    assert |Slots| == 3;
  }

  /** Between two questions, and from the start to the first, at most 15 nodes run. */
  lemma {:induction false} NodesBetweenQuestions(w: World, run: seq<Config>, us: seq<Supply>, from: nat, to: nat)
    requires IsRun(w, run, us) && from <= to < |run|
    requires forall i :: from <= i < to ==> !run[i].node.Clarify?
    ensures to - from + Fuel(run[to]) <= Fuel(run[from]) <= 15
    decreases if from <= to then to - from else 0
  {
    hide Inv, Admissible, Step, Fuel, Able;
    RunsKeepInv(w, run, us, from);
    FuelIsSmall(w, run[from]);
    if from < to {
      assert Advances(w, run[from], us[from], run[from + 1]);
      StepDecreases(w, run[from], us[from]);
      NodesBetweenQuestions(w, run, us, from + 1, to);
    }
  }

  lemma FuelIsSmall(w: World, c: Config)
    requires Inv(w, c)
    ensures Fuel(c) <= 15
  {
    hide Kept, AtNode;
  }

  // -- the last-resort branches -------------------------------------------------------------------------

  /** Neither budget-exhausted branch is ever taken: expansion and repair stop before their budgets do. */
  lemma BudgetsAreNeverExhausted(w: World, run: seq<Config>, us: seq<Supply>, i: nat)
    requires IsRun(w, run, us) && i < |run|
    ensures run[i].node.Expand? ==> run[i].state.rounds < MAX_RETRIEVAL_ROUNDS + 1
    ensures run[i].node.Repair? ==> run[i].state.repairs < MAX_REPAIR_ATTEMPTS
    ensures run[i].state.repairs <= 1
  {
    hide CompiledFor;
    RunsKeepInv(w, run, us, i);
  }

  /** A second repair never succeeds, although the budget allows two. */
  lemma SecondRepairBlocks(w: World, run: seq<Config>, us: seq<Supply>, i: nat)
    requires IsRun(w, run, us) && i < |us| && run[i].node.Repair? && run[i].state.repairs == 1
    ensures run[i + 1].node.Stop?
  {
    hide CompiledFor;
    RunsKeepInv(w, run, us, i);
    assert Advances(w, run[i], us[i], run[i + 1]);
    RepairStep(w, run[i], us[i]);
  }

  // -- what was settled ----------------------------------------------------------------------------------

  /**
    Settled meaning survives: at execution the stored artifact of the current revision was bound,
    compiled and validated from the current proposal; each clarified slot holds an option that
    was offered for it; and the proposal differs from the one first sent to binding by sort keys
    that name no output column.
  */
  lemma SettledMeaningSurvives(w: World, run: seq<Config>, us: seq<Supply>, i: nat)
    requires IsRun(w, run, us) && i < |run| && run[i].node.Execute?
    ensures var c := run[i];
            && c.state.proposal.Some? && c.settled.Some? && c.state.revision in c.store
            && CompiledFor(w, c.state.proposal.value, c.store[c.state.revision])
            && (forall slot :: slot in c.state.clarified ==>
                  && slot in c.chosen && c.chosen[slot].value in c.chosen[slot].offered
                  && Holding(w.period, c.state.proposal.value, slot, c.chosen[slot].value))
            && var columns := ExpectedColumns(w.bundle, c.settled.value);
               || c.state.proposal == c.settled
               || c.state.proposal.value == c.settled.value.(orderBy := KeepNamed(c.settled.value.orderBy, columns))
  {
    hide CompiledFor, KeepNamed, ExpectedColumns, Holding, Step;
    RunsKeepInv(w, run, us, i);
    var c := run[i];
    forall slot | slot in c.state.clarified
      ensures slot in c.chosen
    {
      assert slot in Asked(c.state);
    }
  }

  lemma {:induction false} AllPassed(wh: Warehouse, attestations: seq<Attestation>, i: nat)
    requires i <= |attestations|
    ensures AttestationFailure(wh, attestations, i) == None <==>
              forall n :: i <= n < |attestations| ==> !wh.fails(n) && AttestationPasses(wh.engine, wh.db, attestations[n])
    decreases |attestations| - i
  {
    hide RunAttestation, Check;
    if i < |attestations| {
      AllPassed(wh, attestations, i + 1);
    }
  }

  lemma StoredAtExecute(w: World, c: Config)
    requires Inv(w, c) && c.node.Execute?
    ensures c.state.revision in c.store && c.state.proposal.Some?
    ensures CompiledFor(w, c.state.proposal.value, c.store[c.state.revision])
    ensures JoinsHavePredicates(c.store[c.state.revision].logical.joins)
  {
    hide Kept, Bounded;
  }

  lemma AnsweredStep(w: World, c: Config, u: Supply)
    requires Able(c) && c.node.Execute? && c.state.revision in c.store && Over(Step(w, c, u))
    ensures JoinsHavePredicates(c.store[c.state.revision].logical.joins)
    ensures ExecuteArtifact(w, c.store[c.state.revision], u.warehouse).Ok?
    ensures ResultPasses(c.store[c.state.revision].bound.plan, ExecuteArtifact(w, c.store[c.state.revision], u.warehouse).value,
                         u.warehouse.engine.isNaN)
  {
    hide ResultPasses, ExecuteArtifact, Follow, EdgeTable;
    LastEdges(Run(w, c, u));
  }

  /**
    An answer from execution: the attestations built for the stored artifact all completed and
    passed on the warehouse's data, and the result is the complete page of the artifact's own
    statement and meets its contract.
  */
  lemma AnswersAreAttested(w: World, run: seq<Config>, us: seq<Supply>, i: nat)
    requires IsRun(w, run, us) && i < |us| && run[i].node.Execute? && Over(run[i + 1])
    ensures run[i].state.revision in run[i].store
    ensures Backed(w, run[i].store[run[i].state.revision], us[i].warehouse)
  {
    hide ResultPasses, RunAttestation, AttestationsOf, Fetch, AttestationPasses, CompiledFor, Inv, Step, ExecuteArtifact, Able;
    RunsKeepInv(w, run, us, i);
    assert Advances(w, run[i], us[i], run[i + 1]);
    StoredAtExecute(w, run[i]);
    AnsweredStep(w, run[i], us[i]);
    ExecutedIsBacked(w, run[i].store[run[i].state.revision], us[i].warehouse);
  }

  /** What stands behind an answer of an artifact. */
  ghost predicate Backed(w: World, a: Artifact, wh: Warehouse) {
    && JoinsHavePredicates(a.logical.joins) && Arranging(wh)
    && Fetch(wh, a.query).Ok? && !Fetch(wh, a.query).value.truncated
    && ResultPasses(a.bound.plan, Fetch(wh, a.query).value, wh.engine.isNaN)
    && var built := AttestationsOf(w.bundle, a.logical, a.logical.joins, w.scope, a.parameters);
       built.Ok? && forall n :: 0 <= n < |built.value| ==> AttestationPasses(wh.engine, wh.db, built.value[n])
  }

  lemma ExecutedIsBacked(w: World, a: Artifact, wh: Warehouse)
    requires JoinsHavePredicates(a.logical.joins) && Arranging(wh) && ExecuteArtifact(w, a, wh).Ok?
    requires ResultPasses(a.bound.plan, ExecuteArtifact(w, a, wh).value, wh.engine.isNaN)
    ensures Backed(w, a, wh)
  {
    hide RunAttestation, AttestationsOf, Fetch, AttestationPasses, KeysUnique, Arranging, WellShaped, AttestationFailure;
    var built := AttestationsOf(w.bundle, a.logical, a.logical.joins, w.scope, a.parameters);
    AllPassed(wh, built.value, 0);
  }
}
