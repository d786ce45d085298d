/**
  Approved-relationship join planning: a bounded breadth-first search over the directed
  multigraph of approved edges, and the ranking of the plans it finds.
*/
module Planner {
  import opened Errors
  import opened Values
  import opened Expressions
  import opened Catalog

  const MAX_HOPS := 4
  const MAX_CANDIDATES := 32

  datatype PlannedJoin = PlannedJoin(relationship: Relationship, from: TableId, to: TableId, reversed: bool, preserves: bool)

  function Visited(base: TableId, joins: seq<PlannedJoin>): set<TableId> {
    {base} + set j | j in joins :: j.to
  }

  function RefsOf(joins: seq<PlannedJoin>): (refs: seq<string>)
    ensures |refs| == |joins|
    ensures forall i :: 0 <= i < |joins| ==> refs[i] == joins[i].relationship.ref
  {
    if joins == [] then [] else [joins[0].relationship.ref] + RefsOf(joins[1..])
  }

  datatype JoinPlan = JoinPlan(base: TableId, joins: seq<PlannedJoin>) {

    function Tables(): set<TableId> {
      Visited(base, joins)
    }

    predicate IsAdditiveSafe() {
      forall j :: j in joins ==> j.preserves
    }

    function Refs(): seq<string> {
      RefsOf(joins)
    }
  }

  // -- edges -------------------------------------------------------------------------------

  datatype Edge = Edge(relationship: Relationship, other: TableId, reversed: bool)

  /** The bundle files a relationship under its left table and again under its right table. */
  function FiledUnder(rels: seq<Relationship>, t: TableId): seq<Relationship> {
    if rels == [] then []
    else
      var left := if rels[0].leftTable == t then [rels[0]] else [];
      var right := if rels[0].rightTable == t then [rels[0]] else [];
      left + right + FiledUnder(rels[1..], t)
  }

  function Edges(rels: seq<Relationship>, t: TableId): seq<Edge> {
    if rels == [] then []
    else
      var forward := if rels[0].leftTable == t then [Edge(rels[0], rels[0].rightTable, false)] else [];
      var backward := if rels[0].rightTable == t then [Edge(rels[0], rels[0].leftTable, true)] else [];
      forward + backward + Edges(rels[1..], t)
  }

  method EdgesFrom(bundle: Bundle, t: TableId) returns (edges: seq<Edge>)
    ensures edges == Edges(FiledUnder(bundle.relationships, t), t)
  {
    hide FiledUnder, Edges;
    edges := [];
    var rels := FiledUnder(bundle.relationships, t);
    assert rels[0..] == rels && [] + Edges(rels, t) == Edges(rels, t);
    for i := 0 to |rels|
      invariant Edges(rels, t) == edges + Edges(rels[i..], t)
    {
      EdgesStep(edges, rels, i, t);
      if rels[i].leftTable == t {
        edges := edges + [Edge(rels[i], rels[i].rightTable, false)];
      }
      if rels[i].rightTable == t {
        edges := edges + [Edge(rels[i], rels[i].leftTable, true)];
      }
    }
    NoMoreEdges(rels, t);
    assert edges + [] == edges;
  }

  lemma NoMoreEdges(rels: seq<Relationship>, t: TableId)
    ensures Edges(rels[|rels|..], t) == []
  {
  }

  lemma EdgesStep(done: seq<Edge>, rels: seq<Relationship>, i: nat, t: TableId)
    requires i < |rels|
    ensures var forward := if rels[i].leftTable == t then [Edge(rels[i], rels[i].rightTable, false)] else [];
            var backward := if rels[i].rightTable == t then [Edge(rels[i], rels[i].leftTable, true)] else [];
            done + Edges(rels[i..], t) == done + forward + backward + Edges(rels[i + 1..], t)
  {
    assert rels[i..][1..] == rels[i + 1..];
    var forward := if rels[i].leftTable == t then [Edge(rels[i], rels[i].rightTable, false)] else [];
    var backward := if rels[i].rightTable == t then [Edge(rels[i], rels[i].leftTable, true)] else [];
    var rest := Edges(rels[i + 1..], t);
    assert done + ((forward + backward) + rest) == ((done + forward) + backward) + rest;
  }

  predicate Permitted(scope: Scope, rel: Relationship) {
    && (Discover, TableResource(rel.leftTable)) in scope.allowed
    && (Discover, TableResource(rel.rightTable)) in scope.allowed
    && ColumnsUsable(scope, JoinKeys(rel.predicates), UseInPredicate)
  }

  function Preserves(rel: Relationship, reversed: bool): bool {
    var card := if !reversed then rel.cardinality
                else match rel.cardinality
                  case ManyToOne => OneToMany
                  case OneToMany => ManyToOne
                  case c => c;
    !card.OneToMany? && !card.ManyToMany?
  }

  /** Everything the search depends on. */
  datatype Search = Search(bundle: Bundle, scope: Scope, base: TableId, terminals: set<TableId>, forbid: bool)

  predicate Usable(s: Search, e: Edge, visited: set<TableId>) {
    && e.other !in visited && Permitted(s.scope, e.relationship)
    && (s.forbid ==> Preserves(e.relationship, e.reversed) && e.relationship.prohibitedUsages == [])
  }

  // -- what a join plan is, independently of the search ------------------------------------------

  /** One permitted edge from the visited tables to a table outside them. */
  predicate Step(s: Search, visited: set<TableId>, j: PlannedJoin) {
    && j.relationship in s.bundle.relationships
    && j.from in visited
    && (if j.reversed then j.relationship.rightTable == j.from && j.relationship.leftTable == j.to
        else j.relationship.leftTable == j.from && j.relationship.rightTable == j.to)
    && j.preserves == Preserves(j.relationship, j.reversed)
    && Usable(s, Edge(j.relationship, j.to, j.reversed), visited)
  }

  /** A tree of permitted edges, listed as it grows from the base table. */
  predicate Tree(s: Search, joins: seq<PlannedJoin>) {
    forall i :: 0 <= i < |joins| ==> Step(s, Visited(s.base, joins[..i]), joins[i])
  }

  predicate Covers(s: Search, joins: seq<PlannedJoin>) {
    s.terminals <= Visited(s.base, joins)
  }

  /** A tree within the hop limit that covers the terminals. */
  predicate Connects(s: Search, joins: seq<PlannedJoin>) {
    Tree(s, joins) && |joins| <= MAX_HOPS && Covers(s, joins)
  }

  /** One that stops as soon as the terminals are covered. */
  predicate Candidate(s: Search, joins: seq<PlannedJoin>) {
    Connects(s, joins) && forall i :: 0 <= i < |joins| ==> !Covers(s, joins[..i])
  }

  lemma VisitedGrows(base: TableId, joins: seq<PlannedJoin>, j: PlannedJoin)
    ensures Visited(base, joins + [j]) == Visited(base, joins) + {j.to}
  {
    assert forall k :: k in joins + [j] <==> k in joins || k == j;
  }

  lemma TreeGrows(s: Search, joins: seq<PlannedJoin>, j: PlannedJoin)
    ensures Tree(s, joins + [j]) <==> Tree(s, joins) && Step(s, Visited(s.base, joins), j)
  {
    var longer := joins + [j];
    assert forall i :: 0 <= i <= |joins| ==> longer[..i] == joins[..i];
    assert joins[..|joins|] == joins;
    if Tree(s, longer) {
      assert Step(s, Visited(s.base, longer[..|joins|]), longer[|joins|]);
      forall i | 0 <= i < |joins|
        ensures Step(s, Visited(s.base, joins[..i]), joins[i])
      {
        assert Step(s, Visited(s.base, longer[..i]), longer[i]);
      }
    }
  }

  lemma PrefixOfTree(s: Search, joins: seq<PlannedJoin>, n: nat)
    requires Tree(s, joins) && n <= |joins|
    ensures Tree(s, joins[..n])
  {
    forall i | 0 <= i < n
      ensures Step(s, Visited(s.base, joins[..n][..i]), joins[..n][i])
    {
      assert joins[..n][..i] == joins[..i];
    }
  }

  /** Every connecting tree contains a candidate as a prefix. */
  lemma {:induction false} CandidateWithin(s: Search, joins: seq<PlannedJoin>) returns (n: nat)
    requires Connects(s, joins)
    ensures n <= |joins| && Candidate(s, joins[..n])
  {
    if i :| 0 <= i < |joins| && Covers(s, joins[..i]) {
      PrefixOfTree(s, joins, i);
      n := CandidateWithin(s, joins[..i]);
      assert joins[..i][..n] == joins[..n];
    } else {
      n := |joins|;
      assert joins[..n] == joins;
    }
  }

  /** Each join adds a table, so a tree has one table more than it has joins. */
  lemma {:induction false} TreeTables(s: Search, joins: seq<PlannedJoin>)
    requires Tree(s, joins)
    ensures |Visited(s.base, joins)| == |joins| + 1
  {
    hide Permitted, Tree, Preserves;
    if joins == [] {
      assert Visited(s.base, joins) == {s.base};
    } else {
      var n := |joins| - 1;
      assert joins == joins[..n] + [joins[n]];
      TreeGrows(s, joins[..n], joins[n]);
      VisitedGrows(s.base, joins[..n], joins[n]);
      TreeTables(s, joins[..n]);
    }
  }

  lemma StepDetermined(s: Search, visited: set<TableId>, j: PlannedJoin, k: PlannedJoin)
    requires DistinctRefs(s.bundle.relationships)
    requires Step(s, visited, j) && Step(s, visited, k) && j.relationship.ref == k.relationship.ref
    ensures j == k
  {
    var rels := s.bundle.relationships;
    var x :| 0 <= x < |rels| && rels[x] == j.relationship;
    var y :| 0 <= y < |rels| && rels[y] == k.relationship;
    assert x == y;
  }

  lemma SameLength(a: seq<PlannedJoin>, b: seq<PlannedJoin>)
    requires RefsOf(a) == RefsOf(b)
    ensures |a| == |b|
  {
    assert |RefsOf(a)| == |a| && |RefsOf(b)| == |b|;
  }

  lemma SamePrefix(a: seq<PlannedJoin>, b: seq<PlannedJoin>, n: nat)
    requires RefsOf(a) == RefsOf(b) && n < |a| && |a| == |b|
    ensures RefsOf(a[..n]) == RefsOf(b[..n]) && a[n].relationship.ref == b[n].relationship.ref
  {
    assert RefsOf(a[..n]) == RefsOf(a)[..n] && RefsOf(b[..n]) == RefsOf(b)[..n];
    assert RefsOf(a)[n] == a[n].relationship.ref && RefsOf(b)[n] == b[n].relationship.ref;
  }

  /** Inside a tree the sequence of relationship references determines the joins. */
  lemma {:induction false} RefsDetermineJoins(s: Search, a: seq<PlannedJoin>, b: seq<PlannedJoin>)
    requires DistinctRefs(s.bundle.relationships) && Tree(s, a) && Tree(s, b)
    requires RefsOf(a) == RefsOf(b)
    ensures a == b
  {
    hide Step, DistinctRefs, Visited, RefsOf;
    SameLength(a, b);
    if a != [] {
      var n := |a| - 1;
      PrefixOfTree(s, a, n);
      PrefixOfTree(s, b, n);
      SamePrefix(a, b, n);
      RefsDetermineJoins(s, a[..n], b[..n]);
      assert Step(s, Visited(s.base, a[..n]), a[n]) && Step(s, Visited(s.base, b[..n]), b[n]);
      StepDetermined(s, Visited(s.base, a[..n]), a[n], b[n]);
      assert a == a[..n] + [a[n]] && b == b[..n] + [b[n]];
    }
  }
}
