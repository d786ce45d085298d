/**
  What an answer is worth: an executed artifact whose attestations all passed reports a sum in
  which every base fact counts once.
*/
module Answers {
  import opened Errors
  import opened Values
  import opened Expressions
  import opened Catalog
  import opened Plans
  import opened SQ = SqlQuery
  import opened PlanMeaning
  import opened Emissions
  import opened CompilerMeaning
  import opened QueryMeaning
  import opened Lowering
  import opened Binder
  import opened Scoping
  import opened EndToEnd
  import opened Attestations
  import opened AttestationMeaning
  import opened Conservation
  import opened Graph
  import opened GraphRuns

  /** Every attestation completes on the database and raises no finding. */
  predicate AllPass(engine: SQ.Engine, db: Database, attestations: seq<Attestation>) {
    forall i :: 0 <= i < |attestations| ==> AttestationPasses(engine, db, attestations[i])
  }

  predicate RequiresUniqueness(bundle: Bundle, j: Join) {
    var rel := FindRelationship(bundle.relationships, j.relationship);
    rel.Some? && rel.value.requiresUniqueness
  }

  /** A join that declares a uniqueness contract has its attestation among those built. */
  lemma {:induction false} EachJoinAttested(bundle: Bundle, plan: LogicalPlan, joins: seq<Join>, scope: Scope, parameters: map<string, Value>,
                                            engine: SQ.Engine, db: Database, j: Join)
    requires JoinsHavePredicates(joins) && AttestationsOf(bundle, plan, joins, scope, parameters).Ok?
    requires AllPass(engine, db, AttestationsOf(bundle, plan, joins, scope, parameters).value)
    requires j in joins && RequiresUniqueness(bundle, j)
    ensures AttestationOf(bundle, plan, j, scope, parameters).Ok?
    ensures AttestationPasses(engine, db, AttestationOf(bundle, plan, j, scope, parameters).value)
  {
    hide AttestationOf, AttestationPasses;
    assert forall k :: k in joins[1..] ==> k in joins;
    var all := AttestationsOf(bundle, plan, joins, scope, parameters).value;
    if !RequiresUniqueness(bundle, joins[0]) {
      EachJoinAttested(bundle, plan, joins[1..], scope, parameters, engine, db, j);
    } else {
      var rest := AttestationsOf(bundle, plan, joins[1..], scope, parameters).value;
      assert all[1..] == rest && all[0] == AttestationOf(bundle, plan, joins[0], scope, parameters).value;
      if j != joins[0] {
        assert forall i :: 0 <= i < |rest| ==> rest[i] == all[i + 1];
        EachJoinAttested(bundle, plan, joins[1..], scope, parameters, engine, db, j);
      }
    }
  }

  lemma {:induction false} FactOnlyLeft(base: TableId, ps: seq<Predicate>)
    requires AllColumnLeft(ps)
    ensures AllColumnLeft(FactOnly(base, ps))
  {
    if ps != [] {
      FactOnlyLeft(base, ps[1..]);
      var rest := FactOnly(base, ps[1..]);
      assert ([ps[0]] + rest)[1..] == rest && [] + rest == rest;
    }
  }

  lemma {:induction false} JoinInOrder(env: Env, joins: seq<Join>, j: Join)
    requires JoinsInOrder(env, joins) && j in joins
    ensures AllInOrder(env, j.predicates)
  {
    if j != joins[0] {
      JoinInOrder(env, joins[1..], j);
    }
  }

  /** A compiled artifact's request has values for its names. */
  lemma ArtifactIsReady(w: World, request: Request, a: Artifact)
    requires Published(w.bundle) && CatalogColumnLeft(w.bundle) && CompiledFor(w, request, a)
    ensures Ready(w.bundle, w.scope, request, a.bound, a.logical, a.parameters)
    ensures EmitSelect(EnvOf(w.bundle, a.logical, w.scope, a.parameters), a.logical).Ok?
  {
    hide EmitSelect, BoundFrom, LowerPlan, BundleWellFormed, CatalogPublished, CatalogColumnLeft, Reparse, AllSettled;
    BoundMeasure(w.bundle, w.scope, request, a.bound);
    LoweredParts(w.bundle, w.scope, a.bound, a.logical);
    PlanCompiles(EnvOf(w.bundle, a.logical, w.scope, a.parameters), a.logical);
  }

  /** What an artifact of a sum must be for its attestations to speak of every join and every fact. */
  predicate FullyAttested(w: World, request: Request, a: Artifact, db: Database, c: ColumnId) {
    && |request.metricIds| == 1 && request.metricIds[0] in w.bundle.metrics
    && w.bundle.metrics[request.metricIds[0]].expression == Aggregate(Sum, Some(c))
    && c.table == a.logical.base.table && a.logical.having == [] && FromBase(a.logical.base.table, a.logical.joins)
    && (forall d :: d in ColumnsInAll(FactOnly(a.logical.base.table, a.logical.where)) ==> d.table == a.logical.base.table)
    && forall j :: j in a.logical.joins ==> Attestable(w.bundle, a.logical, j, db) && RequiresUniqueness(w.bundle, j)
  }

  /** The sum over the base facts whose unique completion passes the plan's conditions, each counted once. */
  function FactTotal(w: World, a: Artifact, db: Database, c: ColumnId): real {
    Total(RowValues(c.name, Counted(a.logical, EnvOf(w.bundle, a.logical, w.scope, a.parameters).names, db)))
  }

  /**
    An executed artifact's sums are conserved: when every attestation built for the artifact passes
    on the database, the measure column of the executed statement adds up to the total of the
    facts, and however its rows are arranged what is delivered falls short of it by what LIMIT cuts.
  */
  lemma AttestedAnswersAreConserved(w: World, request: Request, a: Artifact, engine: SQ.Engine, db: Database, c: ColumnId)
    requires Published(w.bundle) && CatalogColumnLeft(w.bundle) && CompiledFor(w, request, a) && FullyAttested(w, request, a, db, c)
    requires JoinsHavePredicates(a.logical.joins)
    requires var built := AttestationsOf(w.bundle, a.logical, a.logical.joins, w.scope, a.parameters);
             built.Ok? && AllPass(engine, db, built.value)
    ensures Reparse(a.query.sql).Ok? && Reparse(a.query.sql).value.limit == a.logical.limit
    ensures var rows := EvalSelect(engine, Reparse(a.query.sql).value, a.query.values, db);
            && Total(MeasureColumn(rows)) == FactTotal(w, a, db, c)
            && forall arranged :: Arranges(arranged, rows) ==> AddsUp(a.logical.limit, arranged, FactTotal(w, a, db, c))
  {
    hide EmitSelect, CatalogColumnLeft, Reparse, EvalSelect, Attestable, AttestationsOf, FactOnly, FromBase, Counted, SourceRows,
      RequiresUniqueness, ColumnsInAll, Ready, PlanInOrder, Named, DistinctScans, CompiledFor, Published, Attested, AllPass, EnvOf,
      Aliased, JoinsHavePredicates, AddsUp, Arranges, MeasureColumn, RowValues;
    var env := EnvOf(w.bundle, a.logical, w.scope, a.parameters);
    ArtifactParts(w, request, a);
    ArtifactIsReady(w, request, a);
    AcceptedRequestsCompile(w.bundle, w.scope, request, a.bound, a.logical, a.parameters);
    AllJoinsAttested(w, request, a, engine, db);
    ArtifactScans(w, request, a, c);
    LimitIsKept(env, a.logical);
    AttestedSumsAreConserved(w.bundle, a.logical, w.scope, a.parameters, engine, db, c);
  }

  lemma LimitIsKept(env: Env, plan: LogicalPlan)
    requires JoinsHavePredicates(plan.joins) && EmitSelect(env, plan).Ok? && Reparse(EmitSelect(env, plan).value.tree).Ok?
    ensures Reparse(EmitSelect(env, plan).value.tree).value.limit == plan.limit
  {
    hide EmitOutput, EmitJoins, EmitClause, ReadBackJoins, ReadBackOptional, ReadBackProjections;
  }

  /**
    Whole runs: whenever a run is answered by executing a sum that its attestations speak of, the
    measure column of the delivered result and of what LIMIT cut from it add up to the total of
    the facts. The attestations are those that the execute node built and ran itself.
  */
  lemma AnsweredRunsConserve(w: World, run: seq<Config>, us: seq<Supply>, i: nat, c: ColumnId)
    requires Published(w.bundle) && CatalogColumnLeft(w.bundle)
    requires IsRun(w, run, us) && i < |us| && run[i].node.Execute? && Over(run[i + 1])
    requires run[i].state.proposal.Some? && run[i].state.revision in run[i].store
    requires FullyAttested(w, run[i].state.proposal.value, run[i].store[run[i].state.revision], us[i].warehouse.db, c)
    ensures var a, wh := run[i].store[run[i].state.revision], us[i].warehouse;
            && Reparse(a.query.sql).Ok? && Fetch(wh, a.query).Ok?
            && var arranged := wh.arrange(EvalSelect(wh.engine, Reparse(a.query.sql).value, a.query.values, wh.db));
               && Fetch(wh, a.query).value.rows == Delivered(a.logical.limit, arranged)
               && AddsUp(a.logical.limit, arranged, FactTotal(w, a, wh.db, c))
  {
    hide Published, CatalogColumnLeft, FullyAttested, CompiledFor, Inv, Step, Able, AttestationsOf, AttestationPasses, EvalSelect, Reparse,
      ResultPasses, AddsUp, Arranges, FactTotal;
    var a, wh := run[i].store[run[i].state.revision], us[i].warehouse;
    SettledMeaningSurvives(w, run, us, i);
    AnswersAreAttested(w, run, us, i);
    AttestedAnswersAreConserved(w, run[i].state.proposal.value, a, wh.engine, wh.db, c);
  }

  lemma ArtifactParts(w: World, request: Request, a: Artifact)
    requires CompiledFor(w, request, a)
    ensures JoinsHavePredicates(a.logical.joins) && EmitSelect(EnvOf(w.bundle, a.logical, w.scope, a.parameters), a.logical).Ok?
    ensures var query := EmitSelect(EnvOf(w.bundle, a.logical, w.scope, a.parameters), a.logical).value;
            a.query.sql == query.tree && a.query.values == BoundValues(query.bound) && Reparse(query.tree).Ok?
    ensures "p_tenant" in a.parameters && a.parameters["p_tenant"] == w.scope.tenant
  {
    hide EmitSelect, BoundFrom, LowerPlan, Reparse, Validators.Accepts;
  }

  /** The artifact scans each table once, takes its names from the catalog and has the metric's one measure. */
  lemma ArtifactScans(w: World, request: Request, a: Artifact, c: ColumnId)
    requires Published(w.bundle) && CatalogColumnLeft(w.bundle) && CompiledFor(w, request, a) && a.logical.having == []
    requires |request.metricIds| == 1 && request.metricIds[0] in w.bundle.metrics
    requires w.bundle.metrics[request.metricIds[0]].expression == Aggregate(Sum, Some(c))
    ensures DistinctScans(Scans(a.logical)) && SumsOnly(a.logical, c) && Named(EnvOf(w.bundle, a.logical, w.scope, a.parameters))
  {
    hide EmitSelect, BoundFrom, LowerPlan, BundleWellFormed, CatalogPublished, CatalogColumnLeft, Reparse, Validators.Accepts,
      Ready, Named, DistinctScans, AllColumnLeft;
    ArtifactIsReady(w, request, a);
    ReadyPlan(w.bundle, w.scope, request, a.bound, a.logical, a.parameters);
    NamesAreTheCatalogs(w.bundle, w.scope, a.bound, a.logical, a.parameters);
    ScopingIsClosed(w.bundle, w.scope, request, a.bound, a.logical);
  }

  lemma AllJoinsAttested(w: World, request: Request, a: Artifact, engine: SQ.Engine, db: Database)
    requires Published(w.bundle) && CatalogColumnLeft(w.bundle) && CompiledFor(w, request, a) && JoinsHavePredicates(a.logical.joins)
    requires forall j :: j in a.logical.joins ==> Attestable(w.bundle, a.logical, j, db) && RequiresUniqueness(w.bundle, j)
    requires var built := AttestationsOf(w.bundle, a.logical, a.logical.joins, w.scope, a.parameters);
             built.Ok? && AllPass(engine, db, built.value)
    ensures forall j :: j in a.logical.joins ==> Attested(w.bundle, a.logical, j, w.scope, a.parameters, engine, db)
  {
    hide EmitSelect, CatalogColumnLeft, Attestable, AttestationOf, AttestationsOf, AttestedInOrder, RunAttestation, Check,
      RequiresUniqueness, AllColumnLeft, Ready, PlanInOrder, AllPass, CompiledFor, Published, EnvOf, AttestEnv;
    var env := EnvOf(w.bundle, a.logical, w.scope, a.parameters);
    ArtifactParts(w, request, a);
    ArtifactIsReady(w, request, a);
    AcceptedRequestsCompile(w.bundle, w.scope, request, a.bound, a.logical, a.parameters);
    ReadyPlan(w.bundle, w.scope, request, a.bound, a.logical, a.parameters);
    forall j | j in a.logical.joins
      ensures Attested(w.bundle, a.logical, j, w.scope, a.parameters, engine, db)
    {
      EachJoinAttested(w.bundle, a.logical, a.logical.joins, w.scope, a.parameters, engine, db, j);
      JoinAttestedInOrder(w, a, j, env);
    }
  }

  lemma JoinAttestedInOrder(w: World, a: Artifact, j: Join, env: Env)
    requires PlanInOrder(env, a.logical) && AllColumnLeft(a.logical.where) && j in a.logical.joins
    requires env == EnvOf(w.bundle, a.logical, w.scope, a.parameters) && "p_tenant" in a.parameters
    requires a.parameters["p_tenant"] == w.scope.tenant
    ensures AttestedInOrder(AttestEnv(w.bundle, a.logical, w.scope, a.parameters), a.logical, j)
  {
    hide FactOnly, AllColumnLeft;
    assert a.parameters["p_tenant" := w.scope.tenant] == a.parameters;
    assert env == AttestEnv(w.bundle, a.logical, w.scope, a.parameters);
    JoinInOrder(env, a.logical.joins, j);
    FactOnlyLeft(a.logical.base.table, a.logical.where);
    AllColumnLeftInOrder(env, FactOnly(a.logical.base.table, a.logical.where));
  }
}
