# A verified model of the governed query compiler

A typed request names catalog objects; everything after it is deterministic. The binder closes
the request under rules and plans joins over approved relationships, lowering places every
condition, the compiler emits a parameterized SELECT, the validator reads the text back and
checks it gate by gate, an attestation query proves the uniqueness of each join before the
statement runs, and a bounded workflow graph ties these together with clarification and repair.
This project models that path and proves what it promises.

`dafny verify dfyconfig.toml` checks the whole project.

## How it is modelled

- Values, three-valued logic, comparison, IN, NULL and aggregates follow ISO/IEC 9075-2 sections
  6.34, 8.2, 8.4 and 8.7 (`Values`). A predicate, a measure and a logical plan have a meaning over
  rows keyed by table (`Expressions`, `PlanMeaning`). The emitted statement has an evaluator of its
  own over rows keyed by alias, with placeholders by position (`SqlTree`, `SqlQuery`), and its
  conditions and measures are printed to tokens and parsed back by precedence parsers (`SqlText`,
  `Quotients`).
- Code that works by changing things is imperative: the parameter binder and the compiler context,
  the join search, the rule engine, lowering, the attestation builder, the gates, result validation
  and the artifact store are classes and loops, each proved against a specification function or an
  exact condition. Bags of rows are kept as sequences, so equalities are stronger than bag equality.
- The policy decision is an arbitrary set of permitted (action, resource) pairs. Proposer,
  retrieval, database and resume payloads are arbitrary inputs of a step.
- The catalog is assumed well formed: relationship predicates are non-empty and on the two tables,
  physical names are unique, a tenant key is a flagged column of its own table, relationship
  references are distinct, and conditions of rules mention published columns.
- ORDER BY is an arbitrary arrangement of the rows, which LIMIT then cuts (`Arranges`, `Delivered`,
  `Cut`); results about delivered rows hold for every arrangement.
- Executing is a node that builds, runs and checks the attestations of the stored artifact and then
  evaluates its statement. From outside come the database, the engine, whether a submission fails,
  the arrangement of the rows and the page cap (`Warehouse`).
- A run of the graph starts on a fresh thread. Its configuration also records, as history, what the
  user was offered and chose and which proposal first went to binding.

## What the proofs found

- AMBIGUOUS_PATH cannot be raised: the rank key contains the relationship references, and these
  determine the plan. RULE_CONFLICT cannot be raised: a second default for a slot is never applied.
  FAN_OUT_UNPROVEN cannot be raised by binding, whose join plan is asked for without multiplying edges.
- A membership binds its members before its left operand. With a bound left operand the positions are
  misaligned and the closing count check cannot see it; binder-made filters are never of that form.
- A ratio with policy zero or error becomes a plain division, right exactly when its denominator is
  not zero or the engine divides by zero as the policy asks. A ratio with policy null uses NULLIF,
  which the validator's allowlist lacks, so it is compiled and then always refused. A ratio over
  count-distinct is always refused as well. So every ratio that is executed leaves its zero
  denominators to the engine.
- A ratio divided by a ratio is emitted without parentheses: A / (B / C) is executed as (A / B) / C.
- The binder's authorization sweep misses the tenant keys that lowering adds; the validator alone
  checks them.
- The fact-only test of the attestation compares identifier prefixes and would take a column of a
  table nested under the base table's identifier for one of the base table.
- When two output aliases collide, the duplicate-key check reads the first column twice and can
  block a correct result: exactly when two groups differ only in columns hidden behind an earlier
  name. It can never detect fan-out: compiled keys are unique whatever the joins did.
- Attestation conserves the sums of the statement's rows, not of what is delivered: a limit cuts some.
- The closure's cap of eight rounds refuses rule chains that would settle.
- The closing comment on the reporting timezone says that the default rule supplies it; the code takes
  it from the request's period.
- When a request needs no table beyond its metric's base, the planner returns the empty plan and ignores
  required relationships.
- At most one repair ever succeeds, although two are budgeted.

## Model

| member | source | states |
|---|---|---|
| Compiler.ParamBinder.Bind | app/sql/compiler.py:43-53 | a bound value takes the next position, next to its audit name; earlier ones stay where they are |
| Compiler.Ctx.Column | app/sql/compiler.py:194-205 | a column renders through its table's alias and is recorded as referenced; an unscanned table or an unpublished column is an error |
| Compiler.Ctx.Predicate | app/sql/compiler.py:229-256 | the recursion over the shared binder leaves the tree, the bindings in binding order and the referenced columns of the predicate's emission, or its error |
| Compiler.Ctx.Measure | app/sql/compiler.py:258-275 | a measure renders to the tree and columns of its emission and binds nothing |
| Compiler.AndAll | app/sql/compiler.py:277-281 | the conjunction loop yields the left-nested AND of the parts, their bindings one after the other |
| Compiler.Compile | app/sql/compiler.py:59-182 | compiling yields exactly the statement, values, names and references of the plan's emission, or the first error met; the closing count check never fails |
| Emissions.PlaceholdersMatchValues | app/sql/compiler.py:160-169 | every emitted statement has as many placeholders as bound values |
| SqlText.TextReadsBack | app/sql/compiler.py:241-253 | text printed with no parentheses beyond the tree's own parses completely, with NOT over AND over OR, to the left-grouped tree |
| SqlText.RegroupKeepsMeaning | app/sql/compiler.py:241-253 | left-grouping a condition changes none of its three-valued meanings |
| SqlText.RegroupKeepsText | app/sql/compiler.py:241-253 | the left-grouped tree prints to the same tokens, hence the same order of placeholders |
| SqlText.RegroupKeepsConjuncts | app/sql/validators/suite.py:468-475 | the parsed condition has the same top-level conjuncts in the same order, each regrouped |
| SqlText.RegroupKeepsColumns | app/sql/validators/suite.py:495-503 | the parsed condition mentions the same columns |
| CompilerMeaning.EmittedShape | app/sql/compiler.py:241-253 | every condition the compiler emits is one the parser cannot misread |
| CompilerMeaning.PlaceholdersAligned | app/sql/compiler.py:229-256 | the bindings of a predicate are in text order exactly when, in each of its memberships, the left side is unbound or equal to each member's binding |
| QueryMeaning.StatementAligned | app/sql/compiler.py:160-169 | over ON, WHERE and HAVING the k-th placeholder of the text takes the k-th name and value exactly when every membership is in order |
| QueryMeaning.BoundLeftSideMisaligns | app/sql/compiler.py:237-240 | 1 IN (2, 2) with a bound left side is executed as 2 IN (2, 1): the counts agree and the meaning differs |
| CompilerMeaning.PredicateMeaning | app/sql/compiler.py:229-256 | fed its values in text order, the emitted condition has the predicate's three-valued meaning on every row |
| CompilerMeaning.ClauseMeaning | app/sql/compiler.py:277-281 | a clause printed, parsed back and evaluated means the conjunction of its predicates |
| Quotients.MeasureReadsBack | app/sql/compiler.py:258-275 | a measure's text parses completely, and to the measure grouped to the left |
| Quotients.LeftDivided | app/sql/compiler.py:264-271 | what it parses to never divides by a bare quotient |
| Quotients.MeasureKeepsShape | app/sql/compiler.py:264-271 | it parses to the emitted tree exactly when no divisor is a quotient outside NULLIF |
| RatioMeaning.TextDenotesMeasure | app/sql/compiler.py:264-271 | the text denotes the measure itself exactly when no divisor in it is a ratio outside the NULL policy |
| RatioMeaning.RatioPolicyExact | app/sql/compiler.py:258-275 | for every measure of any depth, on every group: it and all its parts give their contract's answers exactly when every divisor in it is not zero, has the NULL policy, or has the zero policy where the engine answers zero itself |
| RatioMeaning.FlatRowsExact | app/sql/compiler.py:258-275 | for aggregates and ratios of aggregates, a whole plan is answered right exactly when those divisors are met on every kept group |
| RatioMeaning.MetRowsAreRight | app/sql/compiler.py:258-275 | met divisors make a plan's answer right at any depth, when no divisor is a bare ratio |
| QueryMeaning.MeasureMeaning | app/sql/compiler.py:258-275 | the measure read back from its text evaluates, on every group and engine, to plain division over the left-grouped measure, with NULL for a guarded zero divisor |
| QueryMeaning.SourceMeaning | app/sql/compiler.py:113-135 | the joined and filtered rows of the parsed statement are those of the plan, renamed by alias |
| QueryMeaning.CompiledQueryServes | app/sql/compiler.py:59-182 | for every plan, whatever its ratio policies: the parsed text evaluated with positional values yields the plan's own rows, groups and kept groups, with those quotients, columns in contract order, on every database and engine, and carries the plan's order and limit |
| QueryMeaning.CompiledQueryMeaning | app/sql/compiler.py:59-182 | the compiler preserves meaning exactly when each kept group's measures are answered right, as measures under the NULL policy always are; then the answer is the rows the plan asks for and nothing asks for an error |
| Expressions.DenoteReadsOnlyItsColumns | app/contracts/expressions.py:117-141 | columns_in is complete: two rows that agree on a predicate's columns agree on the predicate |
| Planner.EdgesFrom | app/relationships/planner.py:65-75 | the edges of a table are those of the relationships filed under it, forward and backward |
| JoinSearch.AllStepsExact | app/relationships/planner.py:162-199 | the steps tried from a visited set are exactly the permitted edges out of it, each once, in spite of double filing and self-loops |
| JoinSearch.Expand | app/relationships/planner.py:176-198 | expanding a queue entry yields one child per permitted step and no other |
| JoinSearch.Enumerate | app/relationships/planner.py:162-199 | the queue loop ends; it finds only trees of permitted edges that cover the terminals, none twice, all of them while below the cap, and the first found has the fewest hops |
| Planner.RefsDetermineJoins | app/relationships/planner.py:201-210 | inside a tree the sequence of relationship references determines every join |
| Planner.CandidateWithin | app/relationships/planner.py:162-199 | every connecting tree has a prefix that stops as soon as the terminals are covered, which is what the search looks for |
| JoinPlanning.Rank | app/relationships/planner.py:212-213 | ranking sorts by hops, preserved multiplicity and references and keeps every candidate |
| JoinPlanning.Plan | app/relationships/planner.py:100-160 | a plan is a tree of permitted edges within four hops that covers the required tables; it is empty when the base table covers them, so the required references are all joined exactly when there are none or some other table is required; without required references NO_APPROVED_PATH is raised exactly when no such tree exists and the plan has the fewest hops of all of them, even when the cap cuts the search; no other error is raised |
| Shortfalls.RequiredRelationshipIsIgnored | app/relationships/planner.py:114-116 | an accepted request whose dimension on the base table requires a published, permitted relationship is planned without it |
| JoinPlanning.RankingIsStrict | app/relationships/planner.py:201-213 | of two different trees exactly one outranks the other, so AMBIGUOUS_PATH cannot be raised |
| JoinPlanning.ChoiceIgnoresListingOrder | app/relationships/planner.py:100-160 | with fewer candidates than the cap the choice does not depend on the order in which relationships are listed |
| FanOut.PreservingMeetsAtMostOne | app/relationships/planner.py:91-98 | data that honours a cardinality gives each row at most one match along an edge the planner calls preserving, also when the edge is reversed |
| FanOut.AdditiveSafePlansDoNotFanOut | app/relationships/planner.py:51-54 | over such data each base row occurs at most once in the joined rows of an additive-safe plan |
| RuleEngine.Engine.constructor | app/semantics/rules.py:55-64 | the activation buckets hold every rule of the catalog and no other |
| RuleEngine.Engine.Activates | app/semantics/rules.py:66-86 | a rule is reported active exactly when it is; looking for a tag raises only over an unknown reached table, and finds nothing only if every reached table is known |
| RuleEngine.Engine.Candidates | app/semantics/rules.py:88-94 | the candidates of a round are exactly the rules active in its state, or the error of a tag search that met an unknown table |
| RuleEngine.Engine.RunRound | app/semantics/rules.py:108-180 | one pass over the candidates snapshotted at its start adds exactly the effects of the rules active then, and records every one of them |
| RuleEngine.Engine.Close | app/semantics/rules.py:98-195 | closure yields the least state above the seed closed under active effects, with exactly the obligations of the active mandatory rules in order of reference, within one more round than there are rules; it never succeeds over eight changing rounds, and when no effect is unknown or withheld it fails exactly then, with the convergence error |
| RuleEngine.ChainIsRestless | app/semantics/rules.py:106-182 | a chain of eight or more rules changes something in eight rounds, so closing it raises that error, although it would settle after as many rounds as it has rules |
| RuleEngine.DetectConflicts | app/semantics/rules.py:197-214 | a conflict is raised exactly when two applied defaults wrote different values to one slot |
| RuleEngine.NeverConflicting | app/semantics/rules.py:112-119 | that never happens: a second default does not overwrite a slot and is not recorded as applied |
| Rules.LimitIsLeast | app/semantics/rules.py:98-195 | a state that a round leaves unchanged is the least closed state above the seed, rules that wait for an unset slot included |
| Rules.RoundsIgnoreRuleOrder | app/semantics/rules.py:88-94 | bundles that list the same rules in different orders reach the same state after every round |
| Rules.ChangeNeedsANewRule | app/semantics/rules.py:106-180 | a round that changes the state processes some rule for the first time |
| Rules.ConvergesWithinRules | app/semantics/rules.py:106-182 | with at most seven rules the loop never hits its cap |
| Rules.ChainChangesEveryRound | app/semantics/rules.py:106-182 | the bound is tight: a chain of table-introducing rules changes the state in every one of its rounds |
| Lowering.Lower | app/planning/lowering.py:38-190 | lowering yields the plan with conditions placed in the order tenant, time, population, obligations, filters, or its error |
| Lowering.JoinPredicates | app/planning/lowering.py:213-237 | an approved join lowers to one predicate per approved predicate, the open-ended comparison to an OR; an unlisted operator is an error |
| Lowering.TenantScope | app/planning/lowering.py:78-101 | under a tenant-scope obligation each scanned tenant-scoped table gets one tenant condition; one without a key is refused |
| EndToEnd.KeptRowsAreWanted | app/planning/lowering.py:76-142 | the rows an accepted request aggregates are exactly the joined rows of its tenant, in its half-open period, in its metric's population, obeying every mandatory condition and meeting every filter |
| FanOut.LoweredColumns | app/planning/lowering.py:213-237 | a lowered join reads exactly the approved key columns |
| Tenancy.OwnPartOfJoin | app/planning/lowering.py:78-101 | what one tenant sees of a join, inner or left, depends only on what it sees of the two sides |
| Tenancy.TenantsDoNotInterfere | app/planning/lowering.py:78-101 | a plan whose WHERE isolates its tenant-scoped scans gives a tenant the same rows over databases that agree on that tenant's rows, for every join tree |
| EndToEnd.LoweringIsolatesTenants | app/planning/lowering.py:78-101 | lowering under a tenant-scope obligation produces such a WHERE |
| EndToEnd.TenantsSeeTheirOwnRows | app/planning/lowering.py:78-101 | the executed text of every accepted request under a tenant-scope obligation, whatever its measure, does not change with other tenants' rows |
| StorageOrder.TenantsSeeTheirOwnRowsInAnyOrder | app/planning/lowering.py:78-101 | nor does the bag of its rows change when the databases list the tenant's rows in different orders, for a HAVING over grouping columns |
| StorageOrder.ServedPermute | app/sql/compiler.py:59-182 | permuting the joined and filtered rows permutes the rows of the answer |
| Bags.AggregatePermutes | app/sql/compiler.py:258-275 | no aggregate depends on the order of its inputs |
| Binder.ResolveMetric | app/semantics/metrics.py:45-84 | a metric resolves exactly when it is published, may be executed, and each column it touches exists and may be used as it is used |
| Binder.BindDimensions | app/planning/binder.py:141-169 | dimensions bind exactly when each is published, allowed for the metric and readable; the required relationships are collected |
| Binder.BindFilters | app/planning/binder.py:350-386 | filters bind exactly when each names an existing, usable column and a comparison has one value |
| Binder.Bind | app/planning/binder.py:91-348 | an accepted request has its metric, dimensions, period, filters, least rule closure, covering additive-safe join plan, full authorization sweep and contract; a sort key error means an unknown key; the fan-out, ambiguity and conflict errors never occur |
| Binder.ExpectedOutputColumns | app/planning/binder.py:48-69 | the columns a repair expects are those of the request's known dimensions and metrics, in order |
| Binder.ExpectedColumnsAreTheContract | app/planning/binder.py:48-69 | they are the columns of the contract of every accepted request |
| Scoping.LoweredJoins | app/planning/lowering.py:192-195 | each planned table is scanned once, under its physical name and the alias of its position |
| Scoping.OnReadsEarlierScans | app/planning/lowering.py:213-237 | each ON clause has predicates and reads its own table and earlier ones only |
| Scoping.ScopingIsClosed | app/planning/binder.py:215-269 | every column of the projections, ON, WHERE, GROUP BY and HAVING of an accepted request belongs to a scanned table and is published; aliases are distinct |
| EndToEnd.PlanCompiles | app/sql/compiler.py:194-227 | a plan with a measure compiles exactly when its columns belong to scanned tables and are published, and its parameters and enum members have values |
| EndToEnd.FiltersLeft | app/planning/binder.py:372-377 | binder-made filters always have a column on the left of IN |
| EndToEnd.AcceptedRequestsCompile | app/sql/compiler.py:194-205 | compiling an accepted request with values for its names never fails, in particular not for an unscanned column |
| EndToEnd.AcceptedRequestsMeanWhatTheyAsk | app/sql/compiler.py:59-182 | its placeholders are aligned and the executed text yields the served rows on every database; they are what its plan asks for exactly when each kept group's measure is answered right, as under the NULL policy it always is |
| Shortfalls.ZeroPolicyIsNotServed | app/sql/compiler.py:264-271 | an accepted request for a ratio with the zero policy asks for 0 over a zero denominator and is answered with the engine's own division, wrong on every engine that does not answer 0 itself |
| Shortfalls.ErrorPolicyIsNotServed | app/sql/compiler.py:264-271 | an accepted request for a ratio with the error policy must be refused over a zero denominator and is answered |
| Shortfalls.NestedRatioIsMisread | app/sql/compiler.py:264-271 | an accepted request for 8 / (4 / 2) asks for 4 and is answered 1, on every engine |
| Shortfalls.ShopIsValidated | app/sql/validators/suite.py:66-124 | the gates pass these requests: of the small catalog they refuse only ratios with NULLIF or over DISTINCT |
| Attestations.FindProbe | app/sql/attestation.py:82-95 | the probe is the first column of the right grain, or primary key, that cannot be NULL; without one the build fails outside the governed errors |
| Attestations.Build | app/sql/attestation.py:58-162 | the diagnostic keeps fact-only conditions, left-joins, groups by the base grain and counts the probe, emitted under the main plan's aliases |
| Attestations.BuildAttestations | app/sql/attestation.py:42-55 | one attestation per join that declares a uniqueness contract, in join order |
| Attestations.Check | app/sql/attestation.py:171-200 | no finding exactly when both totals are zero; overlap is reported first |
| AttestationMeaning.DiagnosticRows | app/sql/attestation.py:97-126 | with a unique base grain and a probe that is never NULL the inner query has one row per population fact, with its number of matches |
| AttestationMeaning.TotalsCount | app/sql/attestation.py:128-156 | the outer totals are the numbers of facts, of facts with several matches and of facts with none |
| AttestationMeaning.AttestationCounts | app/sql/gateway.py:187-206 | running the printed, parsed and bound attestation gives those totals |
| AttestationMeaning.AttestationDecidesExactlyOne | app/sql/attestation.py:58-156 | the check passes exactly when every population fact has exactly one match |
| AttestationMeaning.PrefixTest | app/sql/attestation.py:107-112 | the identifier-prefix test accepts the columns of the base table and of tables nested under its identifier, and nothing else |
| AttestationMeaning.FactSideIsExact | app/sql/attestation.py:107-112 | without nested identifiers the fact-only conditions are exactly those on the base table alone |
| Conservation.AsOfAttestation | app/planning/lowering.py:213-237 | for an as-of join the check passes exactly when every fact instant lies in the half-open validity interval of exactly one version of its key |
| Conservation.CompletionOf | app/sql/attestation.py:58-156 | a fact that every join matches once has one joined row, made of the fact and of rows that match it |
| Conservation.GroupsAddUp | app/sql/compiler.py:113-135 | the group totals of a SUM add up to the ungrouped total, for every grouping |
| Conservation.UnattestedSumWeighsMatches | app/sql/attestation.py:7-15 | without attestation the sum weighs each fact by its number of matches: an overlap multiplies it, a gap drops it |
| Conservation.AttestedSumsAreConserved | app/sql/attestation.py:58-162 | when every join is attested from the base and passes, the measure column of the statement's rows adds up to the sum over the base facts whose unique completion passes the filters, each once; however ORDER BY arranges the rows, what is delivered and what LIMIT cuts add up to it |
| Shortfalls.LimitCutsSums | app/sql/compiler.py:150-151 | an accepted request with a limit delivers a sum that is not the total of its facts |
| Answers.AttestedAnswersAreConserved | app/sql/attestation.py:42-55 | the same for every artifact the graph compiled and validated, when all attestations that are built for it pass on the database |
| Answers.AnsweredRunsConserve | app/graph/nodes/core.py:345-392 | for every run: an answer from execution delivers rows that, with what LIMIT cut, add up to the total of the facts, on the strength of the attestations the execute node itself built and ran for the stored artifact |
| ValidatorAcceptance.ShapeGatesPass | app/sql/validators/suite.py:178-197 | the parsed statement of an accepted request has as many placeholders as values and as many groupings as plain projections; its nodes are allowed and its DISTINCT declared exactly when its ratio, if it is one, asks neither for NULL nor for distinct counts |
| Validators.GateAllowedNodes | app/sql/validators/suite.py:147-155 | passes exactly when every node kind is on the allowlist |
| Validators.GateTables | app/sql/validators/suite.py:201-230 | passes exactly when every relation of the text is published, declared and certified |
| Validators.GateColumns | app/sql/validators/suite.py:232-274 | passes exactly when every qualified column is published and declared and every sort key is projected |
| Validators.GateJoinsApproved | app/sql/validators/suite.py:285-303 | passes exactly when every join cites a visible relationship with as many predicates |
| Validators.GateJoinPredicates | app/sql/validators/suite.py:556-582 | passes exactly when each ON clause has one top-level conjunct per approved predicate |
| Validators.GateAggregates | app/sql/validators/suite.py:584-606 | passes exactly when DISTINCT occurs under declared count-distinct measures only |
| Validators.GateAuthorization | app/sql/validators/suite.py:307-335 | passes exactly when every referenced column, table and metric is allowed for its use |
| Validators.GateMetricIntegrity | app/sql/validators/suite.py:339-356 | passes exactly when each bound metric equals its published record |
| Validators.GateObligations | app/sql/validators/suite.py:360-403 | passes exactly when each obligation has its columns at its placement or every tenant-scoped scan has its tenant key; run over the plan and again over the text |
| ValidatorAcceptance.OutputNamesAreColumns | app/sql/validators/suite.py:407-414 | the contract of an accepted request declares the projected names in order, its grain is the grouping of the plan, and every sort key is among its columns |
| Validators.GateTime | app/sql/validators/suite.py:433-445 | passes exactly when the period is not empty and its column has a declared time role |
| Validators.GateGroupBy | app/sql/validators/suite.py:416-429 | passes exactly when there are as many grouping expressions as plain projections |
| Validators.GateFanOut | app/sql/validators/suite.py:449-464 | passes exactly when no join of an additive measure multiplies rows |
| Validators.Validate | app/sql/validators/suite.py:66-124 | the report is empty exactly when every gate passes |
| StatementTexts.StatementReads | app/sql/validators/suite.py:495-503 | the parsed statement mentions exactly the plan's columns, has one placeholder per bound value, and has a disallowed node exactly when a ratio has the NULL policy |
| StatementTexts.OnConjuncts | app/sql/validators/suite.py:468-475 | the parsed ON clause of an approved join has one top-level conjunct per predicate |
| ValidatorAcceptance.ObligationsPass | app/sql/validators/suite.py:360-403 | lowering puts every obligation where both obligation gates look for it |
| ValidatorAcceptance.ValidatorAcceptsTheCompiler | app/sql/validators/suite.py:66-124 | for every accepted request that compiles, the gates pass exactly when its tables are certified, its measure is an aggregate or a ratio without NULLIF and DISTINCT, its tenant keys may be used and its time column has a role; no other gate can fail |
| Results.ValidateResult | app/results/validation.py:37-120 | the result passes exactly when its columns are the contract's, it is complete, its unique keys do not repeat and no measure is NaN; emptiness informs, NULLs warn |
| Results.DuplicateKeys | app/results/validation.py:56-71 | the loop reports a duplicate exactly when two rows agree on the key columns, each found by first occurrence of its name |
| JoinedRows.RowsAreCombinations | app/sql/compiler.py:113-135 | with inner joins, the joined and filtered rows are exactly the combinations of one stored row per scanned table that meet every ON condition and WHERE, whatever the join order |
| ResultKeys.CheckBlocksExactly | app/results/validation.py:56-71 | for every accepted request, database and engine, the rows have pairwise different keys, and the duplicate check blocks them exactly when two kept groups agree in every column it looks at, the first of each name |
| ResultKeys.SeenExpressionsNeverBlock | app/results/validation.py:56-71 | when every grouping expression stands in a column the check looks at, as when equal names stand for equal expressions, it never blocks what is delivered, however arranged and cut |
| ResultKeys.EqualNamesEqualExpressions | app/planning/binder.py:42-45 | equal names for equal expressions are enough for that |
| KeyCollisions.CollisionsBlockExactly | app/results/validation.py:56-71 | with inner joins and a HAVING over grouping columns, some database makes the check block a request's rows exactly when two combinations of rows meeting every condition agree in all columns it looks at but not in all |
| KeyCollisions.HiddenColumnsBlock | app/results/validation.py:56-71 | a grouping column hidden behind an earlier column's name and read by no condition makes it block the rows of some database, if the conditions can be met at all |
| Shortfalls.NamesDecide | app/results/validation.py:56-71 | for requests on one table without conditions the names alone decide: some database is blocked exactly when some grouping expression is not seen |
| Shortfalls.CorrectResultIsBlocked | app/planning/binder.py:42-45 | an accepted request with two dimensions whose identifiers end in the same word, and a database of two orders, whose executed rows its own contract's check blocks |
| Clarification.OnlyOfferedAnswers | app/contracts/clarification.py:52-108 | an accepted answer addresses the asked slot with an offered value; free text is accepted exactly when it is a position in range or the value or label of an option |
| Clarification.AnswerSettlesOneSlot | app/planning/clarify.py:144-166 | an answer sets its own slot and leaves the other slots, the filters and the rest of the request alone |
| Clarification.ExecutableMetrics | app/planning/clarify.py:25-39 | the loop keeps, in order, the metrics the principal may discover and execute |
| Clarification.QuestionsAreAskable | app/planning/clarify.py:169-205 | a question is about a slot not asked before, has at least two options and offers only executable metrics |
| Clarification.AnswersResolve | app/planning/clarify.py:73-141 | an accepted period or grain answer removes the ambiguity that was asked about |
| Repairs.RepairOnlyDropsKeys | app/planning/repair.py:66-109 | a repair happens exactly when a repairable finding meets an unknown sort key; it drops those keys and nothing else, and its guard never fires |
| Repairs.RepairsOnce | app/planning/repair.py:66-109 | repairing what a repair kept does nothing |
| Repairs.RepairedSortKeysAreKnown | app/planning/repair.py:84-95 | after a repair the binder finds no unknown sort key |
| Graph.ArtifactStore.DiscardFrom | app/graph/state.py:87-91 | keeps exactly the artifacts of earlier revisions |
| Graph.RunPipeline | app/graph/nodes/core.py:277-323 | binding, lowering, compiling and validating yields a failure, findings with the request's expected columns, or an artifact that passed every gate |
| Graph.BindValidateCompile | app/graph/nodes/core.py:277-342 | the node's update, and a store holding the new artifact at the current revision, earlier ones kept and later ones gone |
| Graph.ExecuteStored | app/graph/nodes/core.py:345-392 | for a stored artifact the node builds its attestations, runs and checks each on the warehouse, then fetches the statement's page and validates it; it answers exactly when the artifact exists, nothing fails, no attestation has a finding and the page is complete and meets the contract |
| GraphRuns.StepKeepsInv | app/graph/nodes/core.py:80-354 | every step keeps the run invariant, and its decision is a key of its edge map |
| GraphRuns.StepDecreases | app/graph/build.py:42-98 | every step decreases a measure of unasked slots, retrieval rounds, repairs and place in the graph |
| GraphRuns.RunsGoOn | app/graph/build.py:42-98 | a run that is not over can always take another step |
| GraphRuns.EveryRunEnds | app/graph/build.py:42-98 | every run ends within 39 nodes, no decision lacks an edge, and an ended run has an answer |
| GraphRuns.NodesBetweenQuestions | app/graph/build.py:42-98 | at most 15 nodes run between two questions, or before the first or after the last |
| GraphRuns.BudgetsAreNeverExhausted | app/graph/nodes/core.py:97-104 | neither budget-exhausted branch, of expansion or of repair, is ever taken |
| GraphRuns.SecondRepairBlocks | app/graph/nodes/core.py:229-274 | a second repair never succeeds: the first left no unknown sort key |
| GraphRuns.SettledMeaningSurvives | app/graph/nodes/core.py:193-354 | at execution the artifact of the current revision was compiled from the current proposal and passed validation, clarified slots hold offered options, and the proposal differs from the settled one by dropped sort keys at most |
| GraphRuns.AnswersAreAttested | app/graph/nodes/core.py:345-392 | in every run, an answer from execution means that the attestations built for the stored artifact all completed and passed on the warehouse's data, and that the result is the complete page of the artifact's own statement and meets its contract |

## Left out

- Language understanding, proposing, embeddings, scoring, search providers, chat and command-line front ends, rendering, tracing: unseen services or presentation; the proposer and retrieval are arbitrary inputs.
- The database connection, EXPLAIN, tickets, hashing, ledger and clocks: execution is evaluation of the parsed statement on a database value, or an arbitrary refusal. Reauthorization may refuse; otherwise the scope is the run's own.
- The SQL library: own tree, printer and parser cover the node kinds the compiler emits. Statement kinds, write nodes, functions and stars that the tree cannot express make the single-statement, read-only, function, star and Cartesian gates hold by construction; they are not modelled.
- Versions, snapshot identifiers and the policy-epoch gate: references are opaque and the catalog is one fixed value.
- Policy patterns, deny cascades and snapshot loading: the policy is an arbitrary permission set.
- Literal typing and coercion of instants: a literal carries its value. Values of different kinds are ordered by kind.
- Calendar and timezone bucketing and division by zero belong to an uninterpreted engine; HAVING is evaluated on a group's first row.
- The collation of ORDER BY: any arrangement of the rows is allowed.
- Floating point: numbers are reals, and which values count as NaN is an uninterpreted predicate of the engine.
- Message texts, lineage, coverage entries, the scan's column list and render notes: descriptive only.
- Binder.ResolveColumns: which of several missing or hidden columns is reported first is left open.
- Graph.ExecuteStored: a grain without a column that cannot be NULL raises an exception outside the governed errors while attestations are built and ends the run; the model blocks instead.
- Catalog identifiers are pairs of table and name, aliases are numbers, and the lower-casing of names and units covers ASCII, all that catalog identifiers allow.
- Conservation.AttestedSumsAreConserved: covers joins that compare columns of the base table and of the joined table, since the attestation joins the base table alone; a chained join has no such attestation.
