/** The breadth-first enumeration of join plans, proved against the trees it is meant to find. */
module JoinSearch {
  import opened Errors
  import opened Values
  import opened Expressions
  import opened Catalog
  import opened Ordering
  import opened Planner

  // -- the steps that leave a set of visited tables ---------------------------------------

  function StepAlong(t: TableId, e: Edge): PlannedJoin {
    PlannedJoin(e.relationship, t, e.other, e.reversed, Preserves(e.relationship, e.reversed))
  }

  function StepsOver(s: Search, visited: set<TableId>, t: TableId, edges: seq<Edge>): seq<PlannedJoin> {
    if edges == [] then []
    else (if Usable(s, edges[0], visited) then [StepAlong(t, edges[0])] else []) + StepsOver(s, visited, t, edges[1..])
  }

  function StepsFrom(s: Search, visited: set<TableId>, t: TableId): seq<PlannedJoin> {
    StepsOver(s, visited, t, Edges(FiledUnder(s.bundle.relationships, t), t))
  }

  function AllSteps(s: Search, visited: set<TableId>, frontiers: seq<TableId>): seq<PlannedJoin> {
    if frontiers == [] then [] else StepsFrom(s, visited, frontiers[0]) + AllSteps(s, visited, frontiers[1..])
  }

  lemma {:induction false} EdgesConcat(a: seq<Relationship>, b: seq<Relationship>, t: TableId)
    ensures Edges(a + b, t) == Edges(a, t) + Edges(b, t)
  {
    if a == [] {
      assert a + b == b;
    } else {
      assert (a + b)[1..] == a[1..] + b;
      EdgesConcat(a[1..], b, t);
    }
  }

  lemma {:induction false} StepsConcat(s: Search, visited: set<TableId>, t: TableId, a: seq<Edge>, b: seq<Edge>)
    ensures StepsOver(s, visited, t, a + b) == StepsOver(s, visited, t, a) + StepsOver(s, visited, t, b)
  {
    if a == [] {
      assert a + b == b;
    } else {
      assert (a + b)[1..] == a[1..] + b;
      StepsConcat(s, visited, t, a[1..], b);
    }
  }

  /** The one step a relationship offers from a visited table, if any. */
  function OwnStep(s: Search, visited: set<TableId>, t: TableId, rel: Relationship): seq<PlannedJoin> {
    var forward, backward := Edge(rel, rel.rightTable, false), Edge(rel, rel.leftTable, true);
    if rel.leftTable == t && Usable(s, forward, visited) then [StepAlong(t, forward)]
    else if rel.rightTable == t && Usable(s, backward, visited) then [StepAlong(t, backward)]
    else []
  }

  function OwnSteps(s: Search, visited: set<TableId>, t: TableId, rels: seq<Relationship>): seq<PlannedJoin> {
    if rels == [] then [] else OwnStep(s, visited, t, rels[0]) + OwnSteps(s, visited, t, rels[1..])
  }

  /** Double filing and self-loops add nothing: every relationship offers its own step once. */
  lemma FiledSteps(s: Search, visited: set<TableId>, t: TableId, rel: Relationship)
    requires t in visited
    ensures StepsOver(s, visited, t, Edges(FiledUnder([rel], t), t)) == OwnStep(s, visited, t, rel)
  {
    var forward, backward := Edge(rel, rel.rightTable, false), Edge(rel, rel.leftTable, true);
    assert [rel][1..] == [];
    if rel.leftTable == t && rel.rightTable == t {
      assert FiledUnder([rel], t) == [rel, rel];
      assert [rel, rel][1..] == [rel];
      assert Edges([rel], t) == [forward, backward];
      assert Edges([rel, rel], t) == [forward, backward, forward, backward];
      assert forall e :: e in [forward, backward, forward, backward] ==> !Usable(s, e, visited);
      NoStepsOver(s, visited, t, [forward, backward, forward, backward]);
    } else if rel.leftTable == t {
      assert FiledUnder([rel], t) == [rel];
      assert Edges([rel], t) == [forward];
      assert [forward][1..] == [];
    } else if rel.rightTable == t {
      assert FiledUnder([rel], t) == [rel];
      assert Edges([rel], t) == [backward];
      assert [backward][1..] == [];
    } else {
      assert FiledUnder([rel], t) == [];
    }
  }

  lemma {:induction false} NoStepsOver(s: Search, visited: set<TableId>, t: TableId, edges: seq<Edge>)
    requires forall e :: e in edges ==> !Usable(s, e, visited)
    ensures StepsOver(s, visited, t, edges) == []
  {
    if edges != [] {
      assert edges[0] in edges && forall e :: e in edges[1..] ==> e in edges;
      NoStepsOver(s, visited, t, edges[1..]);
    }
  }

  lemma {:induction false} StepsAreOwnSteps(s: Search, visited: set<TableId>, t: TableId, rels: seq<Relationship>)
    requires t in visited
    ensures StepsOver(s, visited, t, Edges(FiledUnder(rels, t), t)) == OwnSteps(s, visited, t, rels)
  {
    hide Usable, StepAlong, OwnStep, StepsOver, Edges;
    if rels == [] {
      NoStepsLeft(s, visited, t, []);
      NoEdges(t);
    } else {
      StepsAreOwnSteps(s, visited, t, rels[1..]);
      FiledSteps(s, visited, t, rels[0]);
      FiledHead(rels, t);
      EdgesConcat(FiledUnder([rels[0]], t), FiledUnder(rels[1..], t), t);
      StepsConcat(s, visited, t, Edges(FiledUnder([rels[0]], t), t), Edges(FiledUnder(rels[1..], t), t));
    }
  }

  lemma NoEdges(t: TableId)
    ensures Edges([], t) == []
  {
  }

  lemma FiledHead(rels: seq<Relationship>, t: TableId)
    requires rels != []
    ensures FiledUnder(rels, t) == FiledUnder([rels[0]], t) + FiledUnder(rels[1..], t)
  {
    assert [rels[0]][1..] == [];
    assert FiledUnder([], t) == [];
  }

  lemma OwnStepExact(s: Search, visited: set<TableId>, t: TableId, rel: Relationship)
    requires t in visited && rel in s.bundle.relationships
    ensures |OwnStep(s, visited, t, rel)| <= 1
    ensures forall j :: j in OwnStep(s, visited, t, rel) <==> Step(s, visited, j) && j.from == t && j.relationship == rel
  {
  }

  lemma {:induction false} OwnStepsExact(s: Search, visited: set<TableId>, t: TableId, rels: seq<Relationship>)
    requires t in visited && DistinctRefs(rels) && forall r :: r in rels ==> r in s.bundle.relationships
    ensures forall j :: j in OwnSteps(s, visited, t, rels) <==> Step(s, visited, j) && j.from == t && j.relationship in rels
    ensures NoDuplicates(OwnSteps(s, visited, t, rels))
  {
    if rels != [] {
      var rel, rest := rels[0], rels[1..];
      assert rel in rels && forall r :: r in rest ==> r in rels;
      OwnStepsExact(s, visited, t, rest);
      forall r | r in rest
        ensures r != rel
      {
        var i :| 0 <= i < |rest| && rest[i] == r;
        assert rels[0].ref != rels[i + 1].ref;
      }
      OwnStepExact(s, visited, t, rel);
      hide OwnStep, Step, DistinctRefs;
      assert rels == [rel] + rest;
    }
  }

  lemma StepsFromExact(s: Search, visited: set<TableId>, t: TableId)
    requires t in visited && DistinctRefs(s.bundle.relationships)
    ensures forall j :: j in StepsFrom(s, visited, t) <==> Step(s, visited, j) && j.from == t
    ensures NoDuplicates(StepsFrom(s, visited, t))
  {
    StepsAreOwnSteps(s, visited, t, s.bundle.relationships);
    OwnStepsExact(s, visited, t, s.bundle.relationships);
  }

  /** The steps listed for the visited tables are the permitted steps, each once. */
  lemma {:induction false} AllStepsExact(s: Search, visited: set<TableId>, frontiers: seq<TableId>)
    requires DistinctRefs(s.bundle.relationships) && NoDuplicates(frontiers)
    requires forall t :: t in frontiers ==> t in visited
    ensures forall j :: j in AllSteps(s, visited, frontiers) <==> Step(s, visited, j) && j.from in frontiers
    ensures NoDuplicates(AllSteps(s, visited, frontiers))
  {
    hide Step, DistinctRefs;
    if frontiers != [] {
      var t, rest := frontiers[0], frontiers[1..];
      assert t in frontiers && forall u :: u in rest ==> u in frontiers;
      assert t !in rest;
      StepsFromExact(s, visited, t);
      AllStepsExact(s, visited, rest);
      var a, b := StepsFrom(s, visited, t), AllSteps(s, visited, rest);
      assert forall j :: j in a + b <==> j in a || j in b;
      forall i, j | 0 <= i < j < |a + b|
        ensures (a + b)[i] != (a + b)[j]
      {
        if i < |a| <= j {
          assert a[i] in a && b[j - |a|] in b;
          assert a[i].from == t && b[j - |a|].from in rest;
        }
      }
    }
  }

  // -- expanding one entry of the queue ---------------------------------------------------------

  datatype Entry = Entry(joins: seq<PlannedJoin>, visited: set<TableId>)

  function Child(entry: Entry, j: PlannedJoin): Entry {
    Entry(entry.joins + [j], entry.visited + {j.to})
  }

  function Children(entry: Entry, steps: seq<PlannedJoin>): (cs: seq<Entry>)
    ensures |cs| == |steps|
    ensures forall i :: 0 <= i < |steps| ==> cs[i] == Child(entry, steps[i])
  {
    if steps == [] then [] else [Child(entry, steps[0])] + Children(entry, steps[1..])
  }

  lemma ChildrenAre(s: Search, entry: Entry, steps: seq<PlannedJoin>)
    requires forall j :: j in steps <==> Step(s, entry.visited, j)
    ensures forall c :: c in Children(entry, steps) <==> exists j :: Step(s, entry.visited, j) && c == Child(entry, j)
  {
    hide Step;
    var cs := Children(entry, steps);
    forall c
      ensures c in cs <==> exists j :: Step(s, entry.visited, j) && c == Child(entry, j)
    {
      if c in cs {
        var i :| 0 <= i < |cs| && cs[i] == c;
        assert steps[i] in steps;
      }
      if j :| Step(s, entry.visited, j) && c == Child(entry, j) {
        var i :| 0 <= i < |steps| && steps[i] == j;
        assert cs[i] == c;
      }
    }
  }

  lemma {:induction false} ChildrenConcat(entry: Entry, a: seq<PlannedJoin>, b: seq<PlannedJoin>)
    ensures Children(entry, a + b) == Children(entry, a) + Children(entry, b)
  {
  }

  method ExpandAlong(s: Search, entry: Entry, t: TableId) returns (children: seq<Entry>)
    ensures children == Children(entry, StepsFrom(s, entry.visited, t))
  {
    hide Usable, StepAlong, StepsOver, Edges, FiledUnder;
    children := [];
    var edges := EdgesFrom(s.bundle, t);
    ghost var steps := [];
    assert edges[0..] == edges && [] + StepsOver(s, entry.visited, t, edges) == StepsOver(s, entry.visited, t, edges);
    for i := 0 to |edges|
      invariant children == Children(entry, steps)
      invariant StepsOver(s, entry.visited, t, edges) == steps + StepsOver(s, entry.visited, t, edges[i..])
    {
      StepsOverStep(s, entry.visited, t, steps, edges, i);
      if Usable(s, edges[i], entry.visited) {
        var step := StepAlong(t, edges[i]);
        OneChild(entry, steps, step);
        children := children + [Child(entry, step)];
        steps := steps + [step];
      }
    }
    NoStepsLeft(s, entry.visited, t, edges);
    assert steps + [] == steps;
  }

  lemma StepsOverStep(s: Search, visited: set<TableId>, t: TableId, done: seq<PlannedJoin>, edges: seq<Edge>, i: nat)
    requires i < |edges|
    ensures done + StepsOver(s, visited, t, edges[i..])
         == (if Usable(s, edges[i], visited) then done + [StepAlong(t, edges[i])] else done) + StepsOver(s, visited, t, edges[i + 1..])
  {
    hide Usable, StepAlong;
    assert edges[i..][1..] == edges[i + 1..];
    var rest := StepsOver(s, visited, t, edges[i + 1..]);
    assert done + ([StepAlong(t, edges[i])] + rest) == (done + [StepAlong(t, edges[i])]) + rest && [] + rest == rest;
  }

  lemma NoStepsLeft(s: Search, visited: set<TableId>, t: TableId, edges: seq<Edge>)
    ensures StepsOver(s, visited, t, edges[|edges|..]) == []
  {
  }

  lemma NoChildren(entry: Entry)
    ensures Children(entry, []) == []
  {
  }

  lemma OneChild(entry: Entry, steps: seq<PlannedJoin>, step: PlannedJoin)
    ensures Children(entry, steps + [step]) == Children(entry, steps) + [Child(entry, step)]
  {
  }

  method Expand(s: Search, entry: Entry) returns (children: seq<Entry>, ghost steps: seq<PlannedJoin>)
    requires DistinctRefs(s.bundle.relationships)
    ensures forall c :: c in children <==> exists j :: Step(s, entry.visited, j) && c == Child(entry, j)
    ensures children == Children(entry, steps) && NoDuplicates(steps)
    ensures forall j :: j in steps <==> Step(s, entry.visited, j)
  {
    hide StepsFrom, Children, DistinctRefs, Usable;
    children := [];
    steps := [];
    NoChildren(entry);
    var frontiers := SortedSet(entry.visited);
    IncreasingHasNoDuplicates(frontiers);
    for i := 0 to |frontiers|
      invariant children == Children(entry, steps)
      invariant AllSteps(s, entry.visited, frontiers) == steps + AllSteps(s, entry.visited, frontiers[i..])
    {
      assert frontiers[i..][1..] == frontiers[i + 1..];
      var more := ExpandAlong(s, entry, frontiers[i]);
      ghost var own := StepsFrom(s, entry.visited, frontiers[i]);
      ChildrenConcat(entry, steps, own);
      assert AllSteps(s, entry.visited, frontiers[i..]) == own + AllSteps(s, entry.visited, frontiers[i + 1..]);
      assert steps + (own + AllSteps(s, entry.visited, frontiers[i + 1..]))
          == (steps + own) + AllSteps(s, entry.visited, frontiers[i + 1..]);
      children := children + more;
      steps := steps + own;
    }
    assert steps + [] == steps;
    AllStepsExact(s, entry.visited, frontiers);
    ChildrenAre(s, entry, steps);
  }

  lemma IncreasingHasNoDuplicates(ss: seq<string>)
    requires Increasing(ss)
    ensures NoDuplicates(ss)
  {
    forall i, j | 0 <= i < j < |ss|
      ensures ss[i] != ss[j]
    {
      StringTrichotomy(ss[i], ss[j]);
    }
  }

  // -- what the queue and the found list keep ----------------------------------------------------------

  /** A queued tree: no proper prefix of it covers the terminals. */
  predicate EntryKept(s: Search, e: Entry) {
    && Tree(s, e.joins) && |e.joins| <= MAX_HOPS && e.visited == Visited(s.base, e.joins)
    && forall i :: 0 <= i < |e.joins| ==> !Covers(s, e.joins[..i])
  }

  predicate QueueKept(s: Search, queue: seq<Entry>) {
    && (forall e :: e in queue ==> EntryKept(s, e))
    && (forall i, j :: 0 <= i < j < |queue| ==> |queue[i].joins| <= |queue[j].joins| <= |queue[0].joins| + 1)
  }

  predicate FoundKept(s: Search, queue: seq<Entry>, found: seq<JoinPlan>) {
    && (forall f :: f in found ==> f.base == s.base && Candidate(s, f.joins))
    && (found != [] ==>
          && (forall f :: f in found ==> |found[0].joins| <= |f.joins|)
          && (forall e :: e in queue ==> |found[0].joins| <= |e.joins|))
  }

  ghost predicate Extended(queue: seq<Entry>, joins: seq<PlannedJoin>) {
    exists e :: e in queue && e.joins <= joins
  }

  /** Every candidate is found or still grows from a queued tree. */
  ghost predicate NothingLost(s: Search, queue: seq<Entry>, found: seq<JoinPlan>) {
    forall c :: Candidate(s, c) ==> JoinPlan(s.base, c) in found || Extended(queue, c)
  }

  /** One list is a prefix of the other. */
  predicate Related(a: seq<PlannedJoin>, b: seq<PlannedJoin>) {
    a <= b || b <= a
  }

  /** No queued or found list is a prefix of another. */
  predicate Antichain(queue: seq<Entry>, found: seq<JoinPlan>) {
    && (forall i, j :: 0 <= i < j < |queue| ==> !Related(queue[i].joins, queue[j].joins))
    && (forall i, j :: 0 <= i < j < |found| ==> !Related(found[i].joins, found[j].joins))
    && (forall e, f :: e in queue && f in found ==> !Related(e.joins, f.joins))
  }

  lemma ExtensionRelated(a: seq<PlannedJoin>, q: seq<PlannedJoin>, j: PlannedJoin)
    requires Related(a, q + [j])
    ensures Related(a, q)
  {
    var c := q + [j];
    if c <= a {
      assert q == c[..|q|] == a[..|q|];
    } else if |a| <= |q| {
      assert a == c[..|a|] == q[..|a|];
    }
  }

  lemma SiblingsUnrelated(q: seq<PlannedJoin>, j: PlannedJoin, k: PlannedJoin)
    requires j != k
    ensures !Related(q + [j], q + [k])
  {
    assert (q + [j])[|q|] == j && (q + [k])[|q|] == k;
  }

  /** The first entry of the queue may be taken out, or moved to the found plans. */
  lemma AntichainMoves(queue: seq<Entry>, found: seq<JoinPlan>, base: TableId)
    requires queue != [] && Antichain(queue, found)
    ensures Antichain(queue[1..], found)
    ensures Antichain(queue[1..], found + [JoinPlan(base, queue[0].joins)])
  {
    var rest := queue[1..];
    assert queue[0] in queue && forall e :: e in rest ==> e in queue;
    forall e | e in rest
      ensures !Related(e.joins, queue[0].joins)
    {
      var i :| 0 <= i < |rest| && rest[i] == e;
      assert !Related(queue[0].joins, queue[i + 1].joins);
    }
  }

  lemma ChildUnrelated(a: seq<PlannedJoin>, q: seq<PlannedJoin>, j: PlannedJoin)
    requires !Related(a, q) || !Related(q, a)
    ensures !Related(a, q + [j])
  {
    if Related(a, q + [j]) {
      ExtensionRelated(a, q, j);
    }
  }

  lemma ChildrenApart(queue: seq<Entry>, found: seq<JoinPlan>, steps: seq<PlannedJoin>)
    requires queue != [] && Antichain(queue, found) && NoDuplicates(steps)
    ensures var longer := queue[1..] + Children(queue[0], steps);
            forall i, j :: 0 <= i < j < |longer| ==> !Related(longer[i].joins, longer[j].joins)
  {
    hide Related;
    var q, rest, children := queue[0].joins, queue[1..], Children(queue[0], steps);
    var longer := rest + children;
    forall i, j | 0 <= i < j < |longer|
      ensures !Related(longer[i].joins, longer[j].joins)
    {
      if |rest| <= i {
        assert longer[i] == children[i - |rest|] && longer[j] == children[j - |rest|];
        SiblingsUnrelated(q, steps[i - |rest|], steps[j - |rest|]);
      } else if |rest| <= j {
        assert longer[i] == queue[i + 1] && longer[j] == children[j - |rest|];
        ChildUnrelated(longer[i].joins, q, steps[j - |rest|]);
      } else {
        assert longer[i] == queue[i + 1] && longer[j] == queue[j + 1];
      }
    }
  }

  lemma ChildrenApartFromFound(queue: seq<Entry>, found: seq<JoinPlan>, steps: seq<PlannedJoin>, e: Entry, f: JoinPlan)
    requires queue != [] && Antichain(queue, found)
    requires e in queue[1..] + Children(queue[0], steps) && f in found
    ensures !Related(e.joins, f.joins)
  {
    hide Related;
    var rest, children := queue[1..], Children(queue[0], steps);
    if e in rest {
      assert e in queue;
    } else {
      var n :| 0 <= n < |children| && children[n] == e;
      assert queue[0] in queue;
      ChildUnrelated(f.joins, queue[0].joins, steps[n]);
      RelatedBothWays(f.joins, e.joins);
    }
  }

  lemma AntichainExpands(queue: seq<Entry>, found: seq<JoinPlan>, steps: seq<PlannedJoin>)
    requires queue != [] && Antichain(queue, found) && NoDuplicates(steps)
    ensures Antichain(queue[1..] + Children(queue[0], steps), found)
  {
    hide Related, Children;
    ChildrenApart(queue, found, steps);
    forall e, f | e in queue[1..] + Children(queue[0], steps) && f in found
      ensures !Related(e.joins, f.joins)
    {
      ChildrenApartFromFound(queue, found, steps, e, f);
    }
  }

  lemma RelatedBothWays(a: seq<PlannedJoin>, b: seq<PlannedJoin>)
    ensures Related(a, b) <==> Related(b, a)
  {
  }

  // -- one round of the search keeps all of it ------------------------------------------------------

  lemma ChildKept(s: Search, e: Entry, j: PlannedJoin)
    requires EntryKept(s, e) && !Covers(s, e.joins) && |e.joins| < MAX_HOPS && Step(s, e.visited, j)
    ensures EntryKept(s, Entry(e.joins + [j], e.visited + {j.to}))
  {
    var longer := e.joins + [j];
    TreeGrows(s, e.joins, j);
    VisitedGrows(s.base, e.joins, j);
    assert longer[..|e.joins|] == e.joins;
    assert forall i :: 0 <= i < |e.joins| ==> longer[..i] == e.joins[..i];
  }

  lemma QueueExpands(s: Search, queue: seq<Entry>, steps: seq<PlannedJoin>)
    requires queue != [] && QueueKept(s, queue)
    requires !Covers(s, queue[0].joins) && |queue[0].joins| < MAX_HOPS
    requires forall j :: j in steps ==> Step(s, queue[0].visited, j)
    ensures QueueKept(s, queue[1..] + Children(queue[0], steps))
  {
    hide EntryKept, Step, Covers;
    var rest, children := queue[1..], Children(queue[0], steps);
    var longer := rest + children;
    assert queue[0] in queue && forall e :: e in rest ==> e in queue;
    forall e | e in children
      ensures EntryKept(s, e)
    {
      var i :| 0 <= i < |children| && children[i] == e;
      ChildKept(s, queue[0], steps[i]);
    }
    forall i, j | 0 <= i < j < |longer|
      ensures |longer[i].joins| <= |longer[j].joins| <= |longer[0].joins| + 1
    {
      if i < |rest| {
        assert |queue[0].joins| <= |queue[i + 1].joins| <= |queue[0].joins| + 1;
      }
      if j < |rest| {
        assert |queue[i + 1].joins| <= |queue[j + 1].joins| <= |queue[0].joins| + 1;
      }
      if rest != [] {
        assert |queue[0].joins| <= |queue[1].joins|;
      }
    }
  }

  lemma QueueShrinks(s: Search, queue: seq<Entry>)
    requires queue != [] && QueueKept(s, queue)
    ensures QueueKept(s, queue[1..])
  {
    var rest := queue[1..];
    assert forall e :: e in rest ==> e in queue;
    forall i, j | 0 <= i < j < |rest|
      ensures |rest[i].joins| <= |rest[j].joins| <= |rest[0].joins| + 1
    {
      assert |queue[i + 1].joins| <= |queue[j + 1].joins| <= |queue[0].joins| + 1;
      assert |queue[0].joins| <= |queue[1].joins|;
    }
  }

  /** A candidate beyond a tree that does not cover the terminals takes a permitted next step. */
  lemma NextStep(s: Search, q: seq<PlannedJoin>, c: seq<PlannedJoin>)
    requires Candidate(s, c) && q <= c && !Covers(s, q)
    ensures |q| < |c| && Step(s, Visited(s.base, q), c[|q|]) && q + [c[|q|]] <= c
  {
    hide Step, Covers;
    assert c[..|q|] == q;
    assert |q| == |c| ==> q == c;
    assert Step(s, Visited(s.base, c[..|q|]), c[|q|]);
  }

  /** Only the first entry leaves the queue. */
  lemma StillExtended(queue: seq<Entry>, more: seq<Entry>, c: seq<PlannedJoin>)
    requires queue != [] && Extended(queue, c) && !(queue[0].joins <= c)
    ensures Extended(queue[1..] + more, c)
  {
    var e :| e in queue && e.joins <= c;
    assert e in queue[1..];
    assert e in queue[1..] + more;
  }

  /** A candidate that grows from the first entry grows from one of its children. */
  lemma NothingLostExpanding(s: Search, queue: seq<Entry>, found: seq<JoinPlan>, steps: seq<PlannedJoin>)
    requires queue != [] && NothingLost(s, queue, found) && EntryKept(s, queue[0]) && !Covers(s, queue[0].joins)
    requires forall j :: Step(s, queue[0].visited, j) ==> j in steps
    ensures NothingLost(s, queue[1..] + Children(queue[0], steps), found)
  {
    hide Candidate, Step, Covers, Tree;
    var q, children := queue[0].joins, Children(queue[0], steps);
    forall c | Candidate(s, c) && JoinPlan(s.base, c) !in found
      ensures Extended(queue[1..] + children, c)
    {
      if q <= c {
        NextStep(s, q, c);
        var i :| 0 <= i < |steps| && steps[i] == c[|q|];
        assert children[i].joins == q + [c[|q|]];
        assert children[i] in queue[1..] + children;
      } else {
        StillExtended(queue, children, c);
      }
    }
  }

  /** Nothing grows from an entry at the hop limit that does not cover the terminals. */
  lemma NothingLostDropping(s: Search, queue: seq<Entry>, found: seq<JoinPlan>)
    requires queue != [] && NothingLost(s, queue, found) && !Covers(s, queue[0].joins) && |queue[0].joins| >= MAX_HOPS
    ensures NothingLost(s, queue[1..], found)
  {
    assert queue[1..] + [] == queue[1..];
    forall c | Candidate(s, c) && JoinPlan(s.base, c) !in found
      ensures Extended(queue[1..], c)
    {
      if queue[0].joins <= c {
        NextStep(s, queue[0].joins, c);
      } else {
        StillExtended(queue, [], c);
      }
    }
  }

  /** A covering entry is a candidate, and the only one that grows from itself. */
  lemma NothingLostFinding(s: Search, queue: seq<Entry>, found: seq<JoinPlan>)
    requires queue != [] && NothingLost(s, queue, found) && EntryKept(s, queue[0]) && Covers(s, queue[0].joins)
    ensures Candidate(s, queue[0].joins)
    ensures NothingLost(s, queue[1..], found + [JoinPlan(s.base, queue[0].joins)])
  {
    var q := queue[0].joins;
    assert queue[1..] + [] == queue[1..];
    forall c | Candidate(s, c) && JoinPlan(s.base, c) !in found + [JoinPlan(s.base, q)]
      ensures Extended(queue[1..], c)
    {
      if q <= c {
        CoveringPrefix(s, q, c);
      } else {
        StillExtended(queue, [], c);
      }
    }
  }

  lemma CoveringPrefix(s: Search, q: seq<PlannedJoin>, c: seq<PlannedJoin>)
    requires Candidate(s, c) && q <= c && Covers(s, q)
    ensures q == c
  {
    assert c[..|q|] == q;
  }

  lemma FoundGrows(s: Search, queue: seq<Entry>, found: seq<JoinPlan>)
    requires queue != [] && QueueKept(s, queue) && FoundKept(s, queue, found) && Candidate(s, queue[0].joins)
    ensures FoundKept(s, queue[1..], found + [JoinPlan(s.base, queue[0].joins)])
  {
    assert queue[0] in queue;
    forall e | e in queue[1..]
      ensures e in queue && |queue[0].joins| <= |e.joins|
    {
      var i :| 0 < i < |queue| && queue[i] == e;
    }
  }

  /** What replaces the first entry has at least as many joins. */
  lemma FoundStays(s: Search, queue: seq<Entry>, found: seq<JoinPlan>, steps: seq<PlannedJoin>)
    requires queue != [] && FoundKept(s, queue, found)
    ensures FoundKept(s, queue[1..], found)
    ensures FoundKept(s, queue[1..] + Children(queue[0], steps), found)
  {
    assert queue[0] in queue;
    forall e | e in queue[1..] + Children(queue[0], steps)
      ensures e in queue || |queue[0].joins| <= |e.joins|
    {
    }
  }

  // -- termination: entries per number of joins, compared lexicographically -----------------------------

  function Level(queue: seq<Entry>, n: nat): nat {
    if queue == [] then 0 else (if |queue[0].joins| == n then 1 else 0) + Level(queue[1..], n)
  }

  lemma {:induction false} LevelConcat(a: seq<Entry>, b: seq<Entry>, n: nat)
    ensures Level(a + b, n) == Level(a, n) + Level(b, n)
  {
    if a == [] {
      assert a + b == b;
    } else {
      assert (a + b)[1..] == a[1..] + b;
      LevelConcat(a[1..], b, n);
    }
  }

  lemma {:induction false} ChildrenLevel(entry: Entry, steps: seq<PlannedJoin>, n: nat)
    requires n <= |entry.joins|
    ensures Level(Children(entry, steps), n) == 0
  {
    if steps != [] {
      ChildrenLevel(entry, steps[1..], n);
    }
  }

  lemma LevelsUnchanged(queue: seq<Entry>, entry: Entry, steps: seq<PlannedJoin>)
    ensures forall n: nat :: n <= |entry.joins| ==> Level(queue + Children(entry, steps), n) == Level(queue, n)
  {
    forall n: nat | n <= |entry.joins|
      ensures Level(queue + Children(entry, steps), n) == Level(queue, n)
    {
      LevelConcat(queue, Children(entry, steps), n);
      ChildrenLevel(entry, steps, n);
    }
  }

  lemma FirstFoundIsShortest(s: Search, queue: seq<Entry>, found: seq<JoinPlan>)
    requires found != [] && FoundKept(s, queue, found) && NothingLost(s, queue, found)
    ensures forall c :: Candidate(s, c) ==> |found[0].joins| <= |c|
  {
    forall c | Candidate(s, c)
      ensures |found[0].joins| <= |c|
    {
      if JoinPlan(s.base, c) !in found {
        var e :| e in queue && e.joins <= c;
      }
    }
  }

  lemma SearchStarts(s: Search)
    ensures var queue := [Entry([], {s.base})];
            QueueKept(s, queue) && FoundKept(s, queue, []) && NothingLost(s, queue, []) && Antichain(queue, [])
  {
    var queue := [Entry([], {s.base})];
    assert Visited(s.base, []) == {s.base};
    assert queue[0] in queue && queue[0].joins == [];
    forall c | Candidate(s, c)
      ensures Extended(queue, c)
    {
      assert queue[0].joins <= c;
    }
  }

  lemma FirstKept(s: Search, queue: seq<Entry>)
    requires queue != [] && QueueKept(s, queue)
    ensures EntryKept(s, queue[0])
  {
    assert queue[0] in queue;
  }

  /** What the loop's invariants say once it has stopped. */
  lemma SearchEnds(s: Search, queue: seq<Entry>, found: seq<JoinPlan>)
    requires FoundKept(s, queue, found) && NothingLost(s, queue, found) && Antichain(queue, found)
    requires queue == [] || |found| == MAX_CANDIDATES
    ensures forall f :: f in found ==> f.base == s.base && Candidate(s, f.joins)
    ensures NoDuplicates(found)
    ensures |found| < MAX_CANDIDATES ==> forall c :: Candidate(s, c) ==> JoinPlan(s.base, c) in found
    ensures found != [] ==> forall c :: Candidate(s, c) ==> |found[0].joins| <= |c|
  {
    if found != [] {
      FirstFoundIsShortest(s, queue, found);
    }
    forall i, j | 0 <= i < j < |found|
      ensures found[i] != found[j]
    {
      assert !Related(found[i].joins, found[j].joins);
    }
  }

  // -- the search ---------------------------------------------------------------------------------------

  method Enumerate(s: Search) returns (found: seq<JoinPlan>)
    requires DistinctRefs(s.bundle.relationships)
    ensures |found| <= MAX_CANDIDATES
    // Everything found is a candidate, and nothing is found twice.
    ensures forall f :: f in found ==> f.base == s.base && Candidate(s, f.joins)
    ensures NoDuplicates(found)
    // Below the cap the search is complete; at the cap the fewest joins are still among the found.
    ensures |found| < MAX_CANDIDATES ==> forall c :: Candidate(s, c) ==> JoinPlan(s.base, c) in found
    ensures found != [] ==> forall c :: Candidate(s, c) ==> |found[0].joins| <= |c|
  {
    hide EntryKept, Candidate, Step, Covers, Antichain, QueueKept, FoundKept, NothingLost;
    found := [];
    var queue := [Entry([], {s.base})];
    SearchStarts(s);
    while queue != [] && |found| < MAX_CANDIDATES
      invariant QueueKept(s, queue) && FoundKept(s, queue, found) && NothingLost(s, queue, found)
      invariant Antichain(queue, found) && |found| <= MAX_CANDIDATES
      decreases Level(queue, 0), Level(queue, 1), Level(queue, 2), Level(queue, 3), Level(queue, 4)
    {
      ghost var before := queue;
      var entry := queue[0];
      queue := queue[1..];
      FirstKept(s, before);
      QueueShrinks(s, before);
      AntichainMoves(before, found, s.base);
      if Covers(s, entry.joins) {
        NothingLostFinding(s, before, found);
        FoundGrows(s, before, found);
        found := found + [JoinPlan(s.base, entry.joins)];
      } else if |entry.joins| >= MAX_HOPS {
        NothingLostDropping(s, before, found);
        FoundStays(s, before, found, []);
      } else {
        var children, steps := Expand(s, entry);
        QueueExpands(s, before, steps);
        NothingLostExpanding(s, before, found, steps);
        AntichainExpands(before, found, steps);
        FoundStays(s, before, found, steps);
        LevelsUnchanged(queue, entry, steps);
        queue := queue + children;
      }
    }
    SearchEnds(s, queue, found);
  }
}
