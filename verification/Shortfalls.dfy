/**
  Accepted requests on which a promise fails, with the databases that show it: a required
  relationship that is not joined, a correct result that is blocked, a limit that cuts sums, and
  ratios that are answered wrong.
*/
module Shortfalls {
  import opened Errors
  import opened Values
  import opened Expressions
  import opened Catalog
  import opened Plans
  import opened JoinPlanning
  import opened Relational
  import opened SQ = SqlQuery
  import opened PlanMeaning
  import opened RatioMeaning
  import opened Emissions
  import opened Binder
  import opened Scoping
  import opened EndToEnd
  import opened Validators
  import opened ValidatorAcceptance
  import opened JoinedRows
  import opened Conservation
  import opened Results
  import opened ResultKeys
  import opened KeyCollisions
  import opened OneTable

  // -- collisions of names, exactly ----------------------------------------------------------------------

  lemma OneTablePlan(bundle: Bundle, scope: Scope, request: Request, p: nat)
    requires StaysOnBase(bundle, scope, request) && p < |PlanOn(bundle, request).groupBy|
    ensures PlanOn(bundle, request).groupBy[p].1.Some?
    ensures PlanOn(bundle, request).groupBy[p].1.value.table == PlanOn(bundle, request).base.table
  {
    hide CatalogPublished, CatalogColumnLeft, MetricUsable, MetricColumns, DimensionOnBase;
    DimensionsOnBase(bundle, scope, request, DimensionsOf(bundle, request.dimensionIds)[p]);
  }

  /**
    Without conditions the names alone decide: the check can block the result of a request that
    stays on one table exactly when some grouping expression is not seen.
  */
  lemma NamesDecide(bundle: Bundle, scope: Scope, request: Request, parameters: map<string, Value>, engine: SQ.Engine)
    requires StaysOnBase(bundle, scope, request)
    ensures Runnable(bundle, PlanOn(bundle, request), scope, parameters)
    ensures CanBlock(bundle, scope, BoundOn(bundle, request), PlanOn(bundle, request), parameters, engine)
       <==> !EveryExpressionSeen(PlanOn(bundle, request))
  {
    hide MetricUsable, MetricColumns, DimensionOnBase, Listed, Ready, Runnable, CanBlock, Clash, EnvOf, Shaped, Confused, BoundOn,
      DimensionsOf, BoundFrom, LoweredFrom, ExpressionSeen, BundleWellFormed, CatalogPublished, CatalogColumnLeft;
    var r, plan := BoundOn(bundle, request), PlanOn(bundle, request);
    var names := EnvOf(bundle, plan, scope, parameters).names;
    StaysOnBaseIsReady(bundle, scope, request, parameters);
    StaysOnBaseIsAccepted(bundle, scope, request);
    AcceptedPlansAreShaped(bundle, scope, request, r, plan);
    CanBlockIsClash(bundle, scope, request, r, plan, parameters, engine);
    if EveryExpressionSeen(plan) {
      forall db: Database
        ensures !Clash(plan, names, engine, db)
      {
        SeenExpressionsNeverClash(plan, names, engine, db);
      }
    } else {
      NamedPerEntry(plan);
      var p :| 0 <= p < |plan.groupBy| && !ExpressionSeen(plan, plan.groupBy[p].1);
      OneTablePlan(bundle, scope, request, p);
      assert plan.joins == [] && Joined([]) == {};
      HiddenColumnsBlock(bundle, scope, request, r, plan, parameters, engine, map[plan.base.table := map[]], plan.groupBy[p].1.value);
    }
  }

  // -- a small catalog ----------------------------------------------------------------------------------------

  const REGION := ColumnId("orders", "region")
  const SELLER := ColumnId("orders", "seller_region")
  const AMOUNT := ColumnId("orders", "amount")
  const COST := ColumnId("orders", "cost")
  const UNITS := ColumnId("orders", "units")
  const STORE := ColumnId("orders", "store")
  const PLACED := ColumnId("orders", "placed")
  const STORE_ID := ColumnId("stores", "id")

  const OrderColumns := {REGION, SELLER, AMOUNT, COST, UNITS, STORE, PLACED}

  /** Orders and their stores, with one metric over the orders and two dimensions of the orders named after regions. */
  function Shop(expression: Measure): Bundle {
    Bundle(
      map["orders" := Table("orders", "db.orders", [], [], None, true, {}), "stores" := Table("stores", "db.stores", [], [], None, true, {})],
      map c | c in OrderColumns + {STORE_ID} :: ColumnRecord(c.name, false, false, true),
      [Relationship("orders_stores", "orders", "stores", [JoinPredicate(On(Eq), STORE, STORE_ID)], ManyToOne, Inner, false, [])],
      [],
      map["sales" := Metric("sales", "sales", "orders", "order", expression, None, [], PLACED, [], None, [])],
      map["order.region" := Dimension("order.region", REGION, Some("orders_stores")),
          "seller.region" := Dimension("seller.region", SELLER, None)],
      map[])
  }

  const Buyer := Scope(Text("acme"),
    (set a, c | a in {Discover, ReadData, UseInPredicate} && c in OrderColumns + {STORE_ID} :: (a, ColumnResource(c)))
    + {(Discover, TableResource("orders")), (Discover, TableResource("stores")), (Discover, ObjectResource("sales")),
       (ExecuteMetric, ObjectResource("sales")), (Discover, ObjectResource("order.region")), (Discover, ObjectResource("seller.region"))})

  function Ask(dimensions: seq<string>, limit: Option<nat>): Request {
    Request(["sales"], dimensions, [], None, None, [], limit, None)
  }

  lemma ShopIsWellFormed(expression: Measure)
    ensures BundleWellFormed(Shop(expression)) && CatalogPublished(Shop(expression)) && CatalogColumnLeft(Shop(expression))
  {
    var b := Shop(expression);
    var rel := b.relationships[0];
    assert JoinKeys(rel.predicates) == {STORE, STORE_ID} by {
      assert rel.predicates[1..] == [] && JoinKeys([]) == {};
    }
    assert STORE in b.columns && STORE_ID in b.columns;
    assert CatalogPublished(b);
    assert PhysicalUnique(b) by {
      assert b.tables["orders"].physical[3] != b.tables["stores"].physical[3];
    }
    hide OrderColumns, JoinKeys;
    assert CatalogColumnLeft(b);
  }

  lemma OrderColumnsUsable(expression: Measure)
    ensures forall c :: c in OrderColumns ==> c in Shop(expression).columns && c.table == "orders"
    ensures forall c, a :: c in OrderColumns && a in {Discover, ReadData, UseInPredicate} ==> (a, ColumnResource(c)) in Buyer.allowed
  {
  }

  lemma MayUse(expression: Measure, cs: set<ColumnId>, a: Action)
    requires cs <= OrderColumns && a in {Discover, ReadData, UseInPredicate}
    ensures ColumnsUsable(Buyer, cs, a) && Resolvable(Shop(expression), Buyer, cs)
  {
    OrderColumnsUsable(expression);
    hide OrderColumns, Buyer, Shop;
  }

  lemma ShopIsUsable(expression: Measure)
    requires MeasureColumns(expression) <= OrderColumns
    ensures MetricUsable(Shop(expression), Buyer, "sales")
  {
    assert PLACED in OrderColumns;
    hide OrderColumns, ColumnsUsable, Resolvable;
    var m := Shop(expression).metrics["sales"];
    assert PopulationColumns(m) + {m.timeColumn} == {PLACED} && MetricColumns(m) == MeasureColumns(expression) + {PLACED};
    MayUse(expression, MetricColumns(m), Discover);
    MayUse(expression, {PLACED}, UseInPredicate);
    MayUse(expression, MeasureColumns(expression), ReadData);
  }

  lemma DimensionsAreUsable(expression: Measure)
    ensures forall id :: id in {"order.region", "seller.region"} ==> DimensionOnBase(Shop(expression), Buyer, Shop(expression).metrics["sales"], id)
  {
    OrderColumnsUsable(expression);
    assert REGION in OrderColumns && SELLER in OrderColumns;
    hide OrderColumns;
  }

  /** The requests of the small catalog are accepted. */
  lemma ShopAccepts(expression: Measure, dimensions: seq<string>, limit: Option<nat>)
    requires MeasureColumns(expression) <= OrderColumns
    requires forall id :: id in dimensions ==> id in {"order.region", "seller.region"}
    ensures StaysOnBase(Shop(expression), Buyer, Ask(dimensions, limit))
  {
    hide BundleWellFormed, CatalogPublished, CatalogColumnLeft, MetricUsable, DimensionOnBase;
    ShopIsWellFormed(expression);
    ShopIsUsable(expression);
    DimensionsAreUsable(expression);
  }

  /** The gates pass what is compiled for them, except ratios that ask for NULL or for distinct counts. */
  lemma ShopIsValidated(expression: Measure, dimensions: seq<string>, limit: Option<nat>)
    requires MeasureColumns(expression) <= OrderColumns
    requires forall id :: id in dimensions ==> id in {"order.region", "seller.region"}
    ensures var b, ask := Shop(expression), Ask(dimensions, limit);
            && Listed(b, ask) && PhysicalUnique(b) && Runnable(b, PlanOn(b, ask), Buyer, map[])
            && (Accepts(b, Buyer, InputsOf(b, Buyer, BoundOn(b, ask), PlanOn(b, ask), map[])) <==> !RatioUnservable(expression))
  {
    hide StaysOnBase, BoundFrom, LoweredFrom, Ready, Runnable, Accepts, RatioUnservable, Shop, Buyer, PlanOn, BoundOn, Listed, IdOf,
      InputsOf, AllCertified, TenantKeysUsable, TimeRoleDeclared, PhysicalUnique, OrderColumns;
    var b, ask := Shop(expression), Ask(dimensions, limit);
    ShopAccepts(expression, dimensions, limit);
    AcceptedParts(b, Buyer, ask);
    StaysOnBaseIsReady(b, Buyer, ask, map[]);
    ShopIsCertified(expression, ask);
    ShopMetric(expression);
    ValidatorAcceptsTheCompiler(b, Buyer, ask, BoundOn(b, ask), PlanOn(b, ask), map[]);
  }

  lemma ShopMetric(expression: Measure)
    ensures "sales" in Shop(expression).metrics
    ensures var m := Shop(expression).metrics["sales"]; m.expression == expression && IdOf(m.ref) == "sales"
  {
    NoAt("sales");
  }

  lemma ShopIsCertified(expression: Measure, ask: Request)
    requires Listed(Shop(expression), ask) && ask.metricIds == ["sales"]
    ensures var b, r := Shop(expression), BoundOn(Shop(expression), ask);
            && AllCertified(b, PlanOn(b, ask)) && TenantKeysUsable(b, Buyer, b.metrics["sales"], r) && TimeRoleDeclared(b, r.plan)
  {
    hide OutputAlias, MetricAlias, DimensionsOf, OrderColumns, Buyer;
    assert Scans(PlanOn(Shop(expression), ask)) == [PlanOn(Shop(expression), ask).base];
  }

  lemma {:induction false} NoAt(ref: string)
    requires '@' !in ref
    ensures IdOf(ref) == ref
  {
    if ref != [] {
      NoAt(ref[1..]);
    }
  }

  // -- a required relationship is not joined -------------------------------------------------------------

  lemma RegionRequiresStores(expression: Measure)
    ensures RequiredRelationships(DimensionsOf(Shop(expression), ["order.region"])) == {"orders_stores"}
    ensures GetRelationship(Shop(expression), "orders_stores", Buyer).Ok?
  {
    hide OutputAlias;
    var dims := DimensionsOf(Shop(expression), ["order.region"]);
    assert dims == [BoundDimensionOf(Shop(expression), "order.region")];
    assert dims[0].relationship == Some("orders_stores");
  }

  lemma AcceptedParts(bundle: Bundle, scope: Scope, request: Request)
    requires StaysOnBase(bundle, scope, request)
    ensures Listed(bundle, request)
    ensures BoundOn(bundle, request).plan.dimensions == DimensionsOf(bundle, request.dimensionIds) && BoundOn(bundle, request).joins.joins == []
  {
  }

  /** The dimension requires a relationship that is published and permitted; the accepted plan has no join. */
  lemma RequiredRelationshipIsIgnored(expression: Measure)
    requires MeasureColumns(expression) <= OrderColumns
    ensures var b, ask := Shop(expression), Ask(["order.region"], None);
            && Listed(b, ask)
            && var r := BoundOn(b, ask);
               && BoundFrom(b, Buyer, ask, r) && LoweredFrom(b, Buyer, r, PlanOn(b, ask))
               && RequiredRelationships(r.plan.dimensions) == {"orders_stores"}
               && GetRelationship(b, "orders_stores", Buyer).Ok? && !("orders_stores" in RefSet(r.joins.joins))
  {
    hide StaysOnBase, BoundFrom, LoweredFrom, Listed, BoundOn, PlanOn, Shop, Buyer, GetRelationship, OrderColumns, DimensionsOf;
    var b, ask := Shop(expression), Ask(["order.region"], None);
    ShopAccepts(expression, ask.dimensionIds, None);
    AcceptedParts(b, Buyer, ask);
    StaysOnBaseIsAccepted(b, Buyer, ask);
    RegionRequiresStores(expression);
    NoJoinsNoRefs();
  }

  // -- a correct result is blocked ---------------------------------------------------------------------------

  lemma SameLeaf()
    ensures OutputAlias("order.region") == OutputAlias("seller.region") == "region"
  {
    hide Leaf, LowerCase, Sanitize;
    assert "order.region" == "order" + ['.'] + "region" && "seller.region" == "seller" + ['.'] + "region";
    LeafAfterDot("order", "region");
    LeafAfterDot("seller", "region");
    LowerRegion();
  }

  lemma {:induction false} LeafAfterDot(prefix: string, leaf: string)
    requires '.' !in leaf
    ensures Leaf(prefix + ['.'] + leaf) == leaf
  {
    var id := prefix + ['.'] + leaf;
    assert id[|prefix|] == '.';
    if prefix == [] {
      assert id[1..] == leaf;
      assert Leaf(leaf) == leaf;
    } else {
      assert id[1..] == prefix[1..] + ['.'] + leaf;
      LeafAfterDot(prefix[1..], leaf);
    }
  }

  const ByRegion := Ask(["order.region", "seller.region"], None)

  const Sales := Aggregate(Sum, Some(AMOUNT))

  /** Both dimensions are shown under one name. */
  lemma RegionsCollide()
    ensures StaysOnBase(Shop(Sales), Buyer, ByRegion)
    ensures var plan := PlanOn(Shop(Sales), ByRegion);
            && plan.groupBy == [("region", Some(REGION)), ("region", Some(SELLER))] && plan.outputGrain == ["region", "region"]
            && plan.base == Scan("orders", "db.orders", 0) && plan.joins == [] && plan.where == [] && plan.having == []
            && plan.timeBucket.None?
  {
    assert AMOUNT in OrderColumns;
    ShopAccepts(Sales, ByRegion.dimensionIds, None);
    RegionGroups();
  }

  lemma RegionGroups()
    requires StaysOnBase(Shop(Sales), Buyer, ByRegion)
    ensures var plan := PlanOn(Shop(Sales), ByRegion);
            && plan.groupBy == [("region", Some(REGION)), ("region", Some(SELLER))] && plan.outputGrain == ["region", "region"]
            && plan.base == Scan("orders", "db.orders", 0)
  {
    hide OutputAlias, StaysOnBase, Buyer, MetricAlias;
    SameLeaf();
    var b := Shop(Sales);
    AcceptedParts(b, Buyer, ByRegion);
    var dims := DimensionsOf(b, ByRegion.dimensionIds);
    assert dims == [BoundDimensionOf(b, "order.region"), BoundDimensionOf(b, "seller.region")];
    GrainNames(dims);
    assert DimensionOutputs(dims) == ["region", "region"];
  }

  const German: Row := map["region" := Text("EU"), "seller_region" := Text("DE")]
  const French: Row := map["region" := Text("EU"), "seller_region" := Text("FR")]

  lemma SellersAreConfused(names: Names, engine: SQ.Engine)
    requires StaysOnBase(Shop(Sales), Buyer, ByRegion)
    ensures Confused(PlanOn(Shop(Sales), ByRegion), names, engine, map["orders" := German], map["orders" := French])
  {
    hide StaysOnBase, OutputAlias, Shop, Buyer, PlanOn;
    RegionsCollide();
    var plan := PlanOn(Shop(Sales), ByRegion);
    var t, u: Tuple<TableId> := map["orders" := German], map["orders" := French];
    assert Joined([]) == {};
    KeyValues(plan, engine, t);
    KeyValues(plan, engine, u);
    assert Field(t, "orders", "region") == Field(u, "orders", "region") == Text("EU");
    assert Field(t, "orders", "seller_region") == Text("DE") && Field(u, "orders", "seller_region") == Text("FR");
    assert PlanKey(plan, engine)(t)[1] != PlanKey(plan, engine)(u)[1];
    assert plan.outputGrain[0] == plan.outputGrain[1];
    assert !Seen(plan.outputGrain, 1);
  }

  /** Two orders of one region by sellers of two: one row each, and the check of the request's own contract blocks them. */
  lemma CorrectResultIsBlocked(engine: SQ.Engine)
    ensures Listed(Shop(Sales), ByRegion)
    ensures var b, r, plan := Shop(Sales), BoundOn(Shop(Sales), ByRegion), PlanOn(Shop(Sales), ByRegion);
            && BoundFrom(b, Buyer, ByRegion, r) && LoweredFrom(b, Buyer, r, plan) && Runnable(b, plan, Buyer, map[])
            && Blocked(b, Buyer, r.plan.contract, plan, map[], engine, map["db.orders" := [German, French]])
  {
    hide StaysOnBase, BoundFrom, LoweredFrom, Ready, Runnable, Executed, Clash, KeysUnique, EnvOf, Shaped, Confused, Shop, Buyer, BoundOn, PlanOn;
    RegionsCollide();
    var b := Shop(Sales);
    AcceptedParts(b, Buyer, ByRegion);
    StaysOnBaseIsAccepted(b, Buyer, ByRegion);
    StaysOnBaseIsReady(b, Buyer, ByRegion, map[]);
    var r, plan := BoundOn(b, ByRegion), PlanOn(b, ByRegion);
    var names := EnvOf(b, plan, Buyer, map[]).names;
    SellersAreConfused(names, engine);
    AcceptedPlansAreShaped(b, Buyer, ByRegion, r, plan);
    AcceptedPlansAreOrdered(b, Buyer, ByRegion, r, plan);
    var t, u: Tuple<TableId> := map["orders" := German], map["orders" := French];
    ConfusedClash(plan, names, engine, t, u);
    assert Scans(plan) == [plan.base];
    OneScan(plan.base, t, u);
    CheckBlocksExactly(b, Buyer, ByRegion, r, plan, map[], engine, map["db.orders" := [German, French]]);
  }

  lemma OneScan(scan: Scan, t: Tuple<TableId>, u: Tuple<TableId>)
    requires scan.table in t && scan.table in u
    ensures DatabaseOf([scan], t, u) == map[scan.physical := [t[scan.table], u[scan.table]]]
  {
    assert [scan][..0] == [];
  }

  lemma LowerRegion()
    ensures Sanitize(LowerCase("region")) == "region"
  {
    LowerKeeps("region");
    SanitizeKeeps("region");
  }

  lemma {:induction false} LowerKeeps(s: string)
    requires forall c :: c in s ==> 'a' <= c <= 'z'
    ensures LowerCase(s) == s
  {
    if s != [] {
      assert s[0] in s && forall c :: c in s[1..] ==> c in s;
      LowerKeeps(s[1..]);
    }
  }

  lemma {:induction false} SanitizeKeeps(s: string)
    requires forall c :: c in s ==> 'a' <= c <= 'z'
    ensures Sanitize(s) == s
  {
    if s != [] {
      assert s[0] in s && forall c :: c in s[1..] ==> c in s;
      SanitizeKeeps(s[1..]);
    }
  }

  // -- ratios that are answered wrong ---------------------------------------------------------------------

  /** Without dimensions there is one group, the whole table. */
  lemma OneGroup(plan: LogicalPlan, names: Names, engine: SQ.Engine, db: Database)
    requires plan.joins == [] && plan.where == [] && plan.having == [] && plan.groupBy == [] && plan.timeBucket.None? && |plan.measures| == 1
    ensures var ts, m := ScanRows(plan.base.table, RowsOf(db, plan.base.physical)), plan.measures[0].1;
            && SourceRows(plan, names, db) == ts
            && ServedRows(plan, names, engine, db) == [[Served(LeftGrouped(m), engine, ts)]]
            && (NothingRefused(plan, names, engine, db) <==> ContractMeasure(m, engine, ts).Gives?)
            && (ContractMeasure(m, engine, ts).Gives? ==> PlanRows(plan, names, engine, db) == [[ContractMeasure(m, engine, ts).v]])
  {
    hide Served, LeftGrouped, ContractMeasure;
    var ts := ScanRows(plan.base.table, RowsOf(db, plan.base.physical));
    NothingFiltered(ts, names);
    assert SourceRows(plan, names, db) == ts;
    var groups: seq<Key> := [[]];
    assert groups[1..] == [] && plan.measures[1..] == [];
    var ks := KeysOf(ts, PlanKey(plan, engine));
    assert GroupMembers(Grouped(plan), ts, ks, []) == ts;
    assert Holds(plan.having, names)(Representative(ts));
    assert ServedGroups(plan, names, engine, ts, ks, groups[1..]) == [] && GroupRows(plan, names, engine, ts, ks, groups[1..]) == [];
    var m := plan.measures[0].1;
    assert ServedValues(plan.measures[1..], engine, ts) == [] && MeasureValues(plan.measures[1..], engine, ts) == [];
    assert groups[0] + ServedValues(plan.measures, engine, ts) == [Served(LeftGrouped(m), engine, ts)];
    assert ContractMeasure(m, engine, ts).Gives? ==>
             groups[0] + MeasureValues(plan.measures, engine, ts) == [ContractMeasure(m, engine, ts).v];
    assert ServedGroups(plan, names, engine, ts, ks, groups) == [groups[0] + ServedValues(plan.measures, engine, ts)] + [];
    assert GroupRows(plan, names, engine, ts, ks, groups) == [groups[0] + MeasureValues(plan.measures, engine, ts)] + [];
  }

  lemma {:induction false} NothingFiltered(ts: seq<Tuple<TableId>>, names: Names)
    ensures Filter(ts, Holds([], names)) == ts
  {
    if ts != [] {
      NothingFiltered(ts[1..], names);
    }
  }

  const AllOrders: Request := Ask([], None)

  /** What the total of an expression is asked and answered to be. */
  lemma TotalIs(expression: Measure, engine: SQ.Engine, db: Database)
    requires MeasureColumns(expression) <= OrderColumns
    ensures Listed(Shop(expression), AllOrders) && Runnable(Shop(expression), PlanOn(Shop(expression), AllOrders), Buyer, map[])
    ensures BoundFrom(Shop(expression), Buyer, AllOrders, BoundOn(Shop(expression), AllOrders))
    ensures LoweredFrom(Shop(expression), Buyer, BoundOn(Shop(expression), AllOrders), PlanOn(Shop(expression), AllOrders))
    ensures var b, ts := Shop(expression), ScanRows("orders", RowsOf(db, "db.orders"));
            var plan := PlanOn(b, AllOrders);
            var names := EnvOf(b, plan, Buyer, map[]).names;
            && Executed(b, plan, Buyer, map[], engine, db) == [[Served(LeftGrouped(expression), engine, ts)]]
            && (NothingRefused(plan, names, engine, db) <==> ContractMeasure(expression, engine, ts).Gives?)
            && (ContractMeasure(expression, engine, ts).Gives? ==> PlanRows(plan, names, engine, db) == [[ContractMeasure(expression, engine, ts).v]])
  {
    hide StaysOnBase, BoundFrom, LoweredFrom, Ready, Runnable, Executed, EnvOf, Buyer, BoundOn, Served, LeftGrouped, ContractMeasure,
      NothingRefused, PlanRows, ServedRows, RowsRight, SourceRows, OutputAlias;
    var b := Shop(expression);
    ShopAccepts(expression, [], None);
    AcceptedParts(b, Buyer, AllOrders);
    StaysOnBaseIsAccepted(b, Buyer, AllOrders);
    StaysOnBaseIsReady(b, Buyer, AllOrders, map[]);
    var plan := PlanOn(b, AllOrders);
    AcceptedRequestsMeanWhatTheyAsk(b, Buyer, AllOrders, BoundOn(b, AllOrders), plan, map[], engine, db);
    PlanOfTotal(expression);
    OneGroup(plan, EnvOf(b, plan, Buyer, map[]).names, engine, db);
  }

  lemma PlanOfTotal(expression: Measure)
    requires Listed(Shop(expression), AllOrders)
    ensures var plan := PlanOn(Shop(expression), AllOrders);
            && plan.joins == [] && plan.where == [] && plan.having == [] && plan.groupBy == [] && plan.timeBucket.None?
            && |plan.measures| == 1 && plan.measures[0].1 == expression && plan.base == Scan("orders", "db.orders", 0)
  {
    hide OutputAlias, MetricAlias;
  }

  function Per(top: ColumnId, bottom: Measure, policy: ZeroPolicy): Measure {
    Ratio(Aggregate(Sum, Some(top)), bottom, policy)
  }

  /** The sums over one order. */
  lemma SumOfOne(c: ColumnId, engine: SQ.Engine, row: Row, x: real)
    requires c.table == "orders" && c.name in row && row[c.name] == Number(x)
    ensures var m, ts := Aggregate(Sum, Some(c)), ScanRows("orders", [row]);
            Served(m, engine, ts) == Number(x) && ContractMeasure(m, engine, ts) == Gives(Number(x))
  {
    var ts := ScanRows("orders", [row]);
    assert ts == [map["orders" := row]];
    assert FieldOver(c, ts) == [Number(x)] by { assert ts[1..] == []; }
    assert NonNull([Number(x)]) == [Number(x)] by { assert [Number(x)][1..] == []; }
    assert Total([Number(x)]) == x by { assert [Number(x)][1..] == []; }
  }

  const Free: Row := map["amount" := Number(1.0), "cost" := Number(0.0)]

  /** A ratio that promises zero on a zero denominator answers with the engine's own division instead. */
  lemma ZeroPolicyIsNotServed(engine: SQ.Engine)
    requires engine.divideByZero(Number(1.0)) != Number(0.0)
    ensures var m, db := Per(AMOUNT, Aggregate(Sum, Some(COST)), ZeroOnZero), map["db.orders" := [Free]];
            && Listed(Shop(m), AllOrders) && Runnable(Shop(m), PlanOn(Shop(m), AllOrders), Buyer, map[])
            && BoundFrom(Shop(m), Buyer, AllOrders, BoundOn(Shop(m), AllOrders))
            && LoweredFrom(Shop(m), Buyer, BoundOn(Shop(m), AllOrders), PlanOn(Shop(m), AllOrders))
            && var plan := PlanOn(Shop(m), AllOrders);
               && PlanRows(plan, EnvOf(Shop(m), plan, Buyer, map[]).names, engine, db) == [[Number(0.0)]]
               && Executed(Shop(m), plan, Buyer, map[], engine, db) == [[engine.divideByZero(Number(1.0))]] != [[Number(0.0)]]
  {
    hide BoundFrom, LoweredFrom, Runnable, Executed, EnvOf, Buyer, BoundOn, PlanOn, Listed, PlanRows, Shop;
    var m, db: Database := Per(AMOUNT, Aggregate(Sum, Some(COST)), ZeroOnZero), map["db.orders" := [Free]];
    SumOfOne(AMOUNT, engine, Free, 1.0);
    SumOfOne(COST, engine, Free, 0.0);
    TotalIs(m, engine, db);
    assert LeftGrouped(m) == m;
  }

  /** A ratio that must be refused on a zero denominator is answered. */
  lemma ErrorPolicyIsNotServed(engine: SQ.Engine)
    ensures var m, db := Per(AMOUNT, Aggregate(Sum, Some(COST)), ErrorOnZero), map["db.orders" := [Free]];
            && Listed(Shop(m), AllOrders) && Runnable(Shop(m), PlanOn(Shop(m), AllOrders), Buyer, map[])
            && BoundFrom(Shop(m), Buyer, AllOrders, BoundOn(Shop(m), AllOrders))
            && LoweredFrom(Shop(m), Buyer, BoundOn(Shop(m), AllOrders), PlanOn(Shop(m), AllOrders))
            && var plan := PlanOn(Shop(m), AllOrders);
               && !NothingRefused(plan, EnvOf(Shop(m), plan, Buyer, map[]).names, engine, db)
               && Executed(Shop(m), plan, Buyer, map[], engine, db) == [[engine.divideByZero(Number(1.0))]]
  {
    hide BoundFrom, LoweredFrom, Runnable, Executed, EnvOf, Buyer, BoundOn, PlanOn, Listed, PlanRows, NothingRefused, Shop;
    var m, db: Database := Per(AMOUNT, Aggregate(Sum, Some(COST)), ErrorOnZero), map["db.orders" := [Free]];
    SumOfOne(AMOUNT, engine, Free, 1.0);
    SumOfOne(COST, engine, Free, 0.0);
    TotalIs(m, engine, db);
    assert LeftGrouped(m) == m;
  }

  const Priced: Row := map["amount" := Number(8.0), "cost" := Number(4.0), "units" := Number(2.0)]

  /** A ratio over a ratio asks for 8 / (4 / 2); its text, on every engine, answers (8 / 4) / 2. */
  lemma NestedRatioIsMisread(engine: SQ.Engine)
    ensures var m, db := Per(AMOUNT, Per(COST, Aggregate(Sum, Some(UNITS)), ZeroOnZero), ZeroOnZero), map["db.orders" := [Priced]];
            && Listed(Shop(m), AllOrders) && Runnable(Shop(m), PlanOn(Shop(m), AllOrders), Buyer, map[])
            && BoundFrom(Shop(m), Buyer, AllOrders, BoundOn(Shop(m), AllOrders))
            && LoweredFrom(Shop(m), Buyer, BoundOn(Shop(m), AllOrders), PlanOn(Shop(m), AllOrders))
            && var plan := PlanOn(Shop(m), AllOrders);
               && PlanRows(plan, EnvOf(Shop(m), plan, Buyer, map[]).names, engine, db) == [[Number(4.0)]]
               && Executed(Shop(m), plan, Buyer, map[], engine, db) == [[Number(1.0)]]
  {
    hide BoundFrom, LoweredFrom, Runnable, Executed, EnvOf, Buyer, BoundOn, PlanOn, Listed, PlanRows, Shop;
    var inner := Per(COST, Aggregate(Sum, Some(UNITS)), ZeroOnZero);
    var m, db: Database := Per(AMOUNT, inner, ZeroOnZero), map["db.orders" := [Priced]];
    SumOfOne(AMOUNT, engine, Priced, 8.0);
    SumOfOne(COST, engine, Priced, 4.0);
    SumOfOne(UNITS, engine, Priced, 2.0);
    TotalIs(m, engine, db);
    assert LeftGrouped(m) == Ratio(Per(AMOUNT, Aggregate(Sum, Some(COST)), ZeroOnZero), Aggregate(Sum, Some(UNITS)), ZeroOnZero);
  }

  // -- a limit cuts sums --------------------------------------------------------------------------------------

  /** A plan that only groups one table by one column. */
  predicate ByOne(plan: LogicalPlan, c: ColumnId) {
    && plan.joins == [] && plan.where == [] && plan.having == [] && plan.timeBucket.None? && |plan.measures| == 1
    && |plan.groupBy| == 1 && plan.groupBy[0].1 == Some(c) && c.table == plan.base.table
  }

  lemma TwoRowsTwoKeys(plan: LogicalPlan, names: Names, engine: SQ.Engine, db: Database, c: ColumnId, x: Row, y: Row)
    requires ByOne(plan, c) && RowsOf(db, plan.base.physical) == [x, y] && c.name in x && c.name in y
    ensures SourceRows(plan, names, db) == [map[c.table := x], map[c.table := y]]
    ensures KeysOf(SourceRows(plan, names, db), PlanKey(plan, engine)) == [[x[c.name]], [y[c.name]]] && Grouped(plan)
  {
    hide DimensionKey, PlanKey, HasDimension;
    var t, u: Tuple<TableId> := map[c.table := x], map[c.table := y];
    assert ScanRows(c.table, [x, y]) == [t, u];
    NothingFiltered([t, u], names);
    assert SourceRows(plan, names, db) == [t, u];
    KeyValues(plan, engine, t);
    KeyValues(plan, engine, u);
    assert PlanKey(plan, engine)(t) == [x[c.name]] && PlanKey(plan, engine)(u) == [y[c.name]];
  }

  lemma OneServedGroup(plan: LogicalPlan, names: Names, engine: SQ.Engine, ts: seq<Tuple<TableId>>, ks: seq<Key>, k: Key, rest: seq<Key>, t: Tuple<TableId>)
    requires |ts| == |ks| && Grouped(plan) && plan.having == [] && |plan.measures| == 1 && Members(ts, ks, k) == [t]
    ensures ServedGroups(plan, names, engine, ts, ks, [k] + rest)
         == [k + [Served(LeftGrouped(plan.measures[0].1), engine, [t])]] + ServedGroups(plan, names, engine, ts, ks, rest)
  {
    hide Served, LeftGrouped, Members, Grouped, ServedGroups, ServedValues;
    var groups := [k] + rest;
    assert groups[1..] == rest && groups[0] == k;
    GroupStep(plan, names, engine, ts, ks, groups);
    OneValue(plan, engine, [t]);
    assert DenoteAll([], names, t) == Yes;
  }

  /** Two rows in two groups. */
  lemma TwoGroups(plan: LogicalPlan, names: Names, engine: SQ.Engine, db: Database, c: ColumnId, x: Row, y: Row)
    requires ByOne(plan, c) && RowsOf(db, plan.base.physical) == [x, y]
    requires c.name in x && c.name in y && x[c.name] != y[c.name]
    ensures var m, t, u := LeftGrouped(plan.measures[0].1), map[c.table := x], map[c.table := y];
            ServedRows(plan, names, engine, db) == [[x[c.name], Served(m, engine, [t])], [y[c.name], Served(m, engine, [u])]]
  {
    hide Served, LeftGrouped, SourceRows, PlanKey, FirstSeen, Members, ServedGroups, Grouped, KeysOf;
    var t, u: Tuple<TableId> := map[c.table := x], map[c.table := y];
    var a, b: Key := [x[c.name]], [y[c.name]];
    var ts, ks := [t, u], [a, b];
    TwoRowsTwoKeys(plan, names, engine, db, c, x, y);
    TwoKeys(a, b);
    TwoMembers(t, u, a, b);
    OneServedGroup(plan, names, engine, ts, ks, a, [b], t);
    OneServedGroup(plan, names, engine, ts, ks, b, [], u);
    NoGroups(plan, names, engine, ts, ks, 1);
    assert [a] + [b] == [a, b] && [b] + [] == [b];
    var m := LeftGrouped(plan.measures[0].1);
    var first, second := a + [Served(m, engine, [t])], b + [Served(m, engine, [u])];
    assert ServedGroups(plan, names, engine, ts, ks, [a, b]) == [first] + ([second] + []);
    assert first == [x[c.name], Served(m, engine, [t])] && second == [y[c.name], Served(m, engine, [u])];
  }

  lemma TwoKeys(a: Key, b: Key)
    requires a != b
    ensures FirstSeen([a, b]) == [a, b]
  {
    assert [a, b][..1] == [a] && [a][..0] == [];
    assert FirstSeen([]) == [];
    assert FirstSeen([a]) == [a];
  }

  lemma TwoMembers(t: Tuple<TableId>, u: Tuple<TableId>, a: Key, b: Key)
    requires a != b
    ensures Members([t, u], [a, b], a) == [t] && Members([t, u], [a, b], b) == [u]
  {
    assert [t, u][1..] == [u] && [a, b][1..] == [b] && [u][1..] == [] && [b][1..] == [];
    assert Members([u], [b], a) == [] && Members([u], [b], b) == [u];
  }

  lemma OneValue(plan: LogicalPlan, engine: SQ.Engine, ts: seq<Tuple<TableId>>)
    requires |plan.measures| == 1
    ensures ServedValues(plan.measures, engine, ts) == [Served(LeftGrouped(plan.measures[0].1), engine, ts)]
  {
    assert plan.measures[1..] == [] && ServedValues([], engine, ts) == [];
  }

  const One: Row := map["seller_region" := Text("DE"), "amount" := Number(1.0)]
  const Two: Row := map["seller_region" := Text("FR"), "amount" := Number(2.0)]

  const TopSeller := Ask(["seller.region"], Some(1))

  /** Of two groups a limit of one delivers one, and the delivered sum is not the total of the facts. */
  lemma LimitCutsSums(engine: SQ.Engine)
    ensures var b, db := Shop(Sales), map["db.orders" := [One, Two]];
            && Listed(b, TopSeller) && Runnable(b, PlanOn(b, TopSeller), Buyer, map[])
            && BoundFrom(b, Buyer, TopSeller, BoundOn(b, TopSeller)) && LoweredFrom(b, Buyer, BoundOn(b, TopSeller), PlanOn(b, TopSeller))
            && var rows := Executed(b, PlanOn(b, TopSeller), Buyer, map[], engine, db);
               && Total(MeasureColumn(rows)) == Total(RowValues("amount", [One, Two])) == 3.0
               && Arranges(rows, rows) && Total(MeasureColumn(Delivered(Some(1), rows))) == 1.0
  {
    hide StaysOnBase, BoundFrom, LoweredFrom, Ready, Runnable, Executed, EnvOf, Buyer, BoundOn, Served, PlanRows, ServedRows, RowsRight,
      SourceRows, OutputAlias, NothingRefused, Shop, PlanOn, Listed;
    assert AMOUNT in OrderColumns;
    var b, db: Database := Shop(Sales), map["db.orders" := [One, Two]];
    ShopAccepts(Sales, TopSeller.dimensionIds, Some(1));
    AcceptedParts(b, Buyer, TopSeller);
    StaysOnBaseIsAccepted(b, Buyer, TopSeller);
    StaysOnBaseIsReady(b, Buyer, TopSeller, map[]);
    var plan := PlanOn(b, TopSeller);
    AcceptedRequestsMeanWhatTheyAsk(b, Buyer, TopSeller, BoundOn(b, TopSeller), plan, map[], engine, db);
    PlanOfTopSeller();
    TwoGroups(plan, EnvOf(b, plan, Buyer, map[]).names, engine, db, SELLER, One, Two);
    SumOfOne(AMOUNT, engine, One, 1.0);
    SumOfOne(AMOUNT, engine, Two, 2.0);
    assert ScanRows("orders", [One]) == [map["orders" := One]] && ScanRows("orders", [Two]) == [map["orders" := Two]];
    assert LeftGrouped(Sales) == Sales;
    TotalsOfTwo(Executed(b, plan, Buyer, map[], engine, db));
  }

  lemma PlanOfTopSeller()
    requires Listed(Shop(Sales), TopSeller)
    ensures var plan := PlanOn(Shop(Sales), TopSeller);
            && plan.joins == [] && plan.where == [] && plan.having == [] && plan.timeBucket.None?
            && |plan.measures| == 1 && plan.measures[0].1 == Sales && plan.base == Scan("orders", "db.orders", 0)
            && |plan.groupBy| == 1 && plan.groupBy[0].1 == Some(SELLER)
  {
    hide OutputAlias, MetricAlias;
  }

  lemma TotalsOfTwo(rows: seq<seq<Value>>)
    requires rows == [[Text("DE"), Number(1.0)], [Text("FR"), Number(2.0)]]
    ensures Total(MeasureColumn(rows)) == Total(RowValues("amount", [One, Two])) == 3.0
    ensures Total(MeasureColumn(Delivered(Some(1), rows))) == 1.0
  {
    assert rows[1..] == [[Text("FR"), Number(2.0)]] && rows[..1] == [[Text("DE"), Number(1.0)]] && rows[1..][1..] == [] && rows[..1][1..] == [];
    assert MeasureColumn(rows) == [Number(1.0), Number(2.0)] && MeasureColumn(rows[..1]) == [Number(1.0)];
    assert [One, Two][1..] == [Two] && [Two][1..] == [];
    assert RowValues("amount", [Two]) == [Number(2.0)] + RowValues("amount", []) == [Number(2.0)];
    assert RowValues("amount", [One, Two]) == [Number(1.0)] + RowValues("amount", [Two]) == [Number(1.0), Number(2.0)];
    assert [Number(1.0), Number(2.0)][1..] == [Number(2.0)] && [Number(2.0)][1..] == [] && [Number(1.0)][1..] == [];
  }
}
