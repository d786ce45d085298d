/** Ranking the enumerated join plans and choosing one. */
module JoinPlanning {
  import opened Errors
  import opened Values
  import opened Expressions
  import opened Catalog
  import opened Ordering
  import opened Planner
  import opened JoinSearch

  /** Aggregation safety first, then tables, then hops, then the references as a tiebreak. */
  datatype RankKey = RankKey(unsafe: nat, tables: nat, hops: nat, refs: seq<string>)

  function KeyOf(p: JoinPlan): RankKey {
    RankKey(if p.IsAdditiveSafe() then 0 else 1, |p.Tables()|, |p.joins|, p.Refs())
  }

  predicate KeyLess(a: RankKey, b: RankKey) {
    if a.unsafe != b.unsafe then a.unsafe < b.unsafe
    else if a.tables != b.tables then a.tables < b.tables
    else if a.hops != b.hops then a.hops < b.hops
    else SeqLess(a.refs, b.refs)
  }

  lemma KeyTrichotomy(a: RankKey, b: RankKey)
    ensures (if KeyLess(a, b) then 1 else 0) + (if KeyLess(b, a) then 1 else 0) + (if a == b then 1 else 0) == 1
  {
    SeqTrichotomy(a.refs, b.refs);
  }

  lemma KeyTransitive(a: RankKey, b: RankKey, c: RankKey)
    requires KeyLess(a, b) && KeyLess(b, c)
    ensures KeyLess(a, c)
  {
    if a.refs != b.refs && SeqLess(a.refs, b.refs) && SeqLess(b.refs, c.refs) {
      SeqTransitive(a.refs, b.refs, c.refs);
    }
  }

  // -- sorting by rank key --------------------------------------------------------------------

  function InsertRanked(p: JoinPlan, ps: seq<JoinPlan>): (r: seq<JoinPlan>)
    ensures multiset(r) == multiset(ps) + multiset{p}
  {
    if ps == [] || KeyLess(KeyOf(p), KeyOf(ps[0])) then [p] + ps
    else
      assert ps == [ps[0]] + ps[1..];
      [ps[0]] + InsertRanked(p, ps[1..])
  }

  ghost predicate Ranked(ps: seq<JoinPlan>) {
    forall i, j :: 0 <= i < j < |ps| ==> !KeyLess(KeyOf(ps[j]), KeyOf(ps[i]))
  }

  lemma {:induction false} InsertKeepsRanks(p: JoinPlan, ps: seq<JoinPlan>)
    requires Ranked(ps)
    ensures Ranked(InsertRanked(p, ps))
  {
    hide KeyLess, KeyOf;
    if ps != [] {
      var first := KeyOf(ps[0]);
      if KeyLess(KeyOf(p), first) {
        forall j | 0 <= j < |ps|
          ensures !KeyLess(KeyOf(ps[j]), KeyOf(p))
        {
          KeyTrichotomy(KeyOf(p), first);
          KeyTrichotomy(first, KeyOf(ps[j]));
          if KeyLess(KeyOf(ps[j]), KeyOf(p)) {
            KeyTransitive(KeyOf(ps[j]), KeyOf(p), first);
          }
        }
      } else {
        assert forall i :: 0 <= i < |ps[1..]| ==> ps[1..][i] == ps[i + 1];
        InsertKeepsRanks(p, ps[1..]);
        var r := InsertRanked(p, ps[1..]);
        forall j | 0 <= j < |r|
          ensures !KeyLess(KeyOf(r[j]), first)
        {
          assert r[j] in multiset(r);
          assert r[j] == p || r[j] in ps[1..];
        }
      }
    }
  }

  method Rank(candidates: seq<JoinPlan>) returns (ranked: seq<JoinPlan>)
    ensures Ranked(ranked) && multiset(ranked) == multiset(candidates)
  {
    ranked := [];
    assert Ranked(ranked);
    hide Ranked, InsertRanked;
    for i := 0 to |candidates|
      invariant Ranked(ranked) && multiset(ranked) == multiset(candidates[..i])
    {
      InsertKeepsRanks(candidates[i], ranked);
      ranked := InsertRanked(candidates[i], ranked);
      assert candidates[..i + 1] == candidates[..i] + [candidates[i]];
    }
    assert candidates[..|candidates|] == candidates;
  }

  lemma FirstRanked(ranked: seq<JoinPlan>, candidates: seq<JoinPlan>)
    requires Ranked(ranked) && multiset(ranked) == multiset(candidates) && candidates != []
    ensures |ranked| == |candidates| && ranked[0] in candidates
    ensures forall c :: c in candidates ==> !KeyLess(KeyOf(c), KeyOf(ranked[0]))
  {
    assert |multiset(ranked)| == |ranked|;
    assert ranked[0] in multiset(candidates);
    forall c | c in candidates
      ensures !KeyLess(KeyOf(c), KeyOf(ranked[0]))
    {
      assert c in multiset(ranked);
      var i :| 0 <= i < |ranked| && ranked[i] == c;
      KeyTrichotomy(KeyOf(c), KeyOf(c));
    }
  }

  // -- choosing --------------------------------------------------------------------------------

  function RefSet(joins: seq<PlannedJoin>): set<string> {
    set ref | ref in RefsOf(joins)
  }

  method Requiring(found: seq<JoinPlan>, refs: set<string>) returns (kept: seq<JoinPlan>)
    ensures forall p :: p in kept <==> p in found && refs <= RefSet(p.joins)
  {
    kept := [];
    for i := 0 to |found|
      invariant forall p :: p in kept <==> p in found[..i] && refs <= RefSet(p.joins)
    {
      assert found[..i + 1] == found[..i] + [found[i]];
      if refs <= RefSet(found[i].joins) {
        kept := kept + [found[i]];
      }
    }
    assert found[..|found|] == found;
  }

  /** There are fewer candidates than the enumeration's cap. */
  ghost predicate Few(s: Search) {
    exists list: seq<JoinPlan> :: |list| < MAX_CANDIDATES && forall c :: Candidate(s, c) ==> JoinPlan(s.base, c) in list
  }

  /** A candidate that uses the required relationships and that no such candidate outranks. */
  ghost predicate Best(s: Search, refs: set<string>, joins: seq<PlannedJoin>) {
    && Candidate(s, joins) && refs <= RefSet(joins)
    && forall c :: Candidate(s, c) && refs <= RefSet(c) ==> !KeyLess(KeyOf(JoinPlan(s.base, c)), KeyOf(JoinPlan(s.base, joins)))
  }

  lemma {:induction false} DistinctFit<T>(xs: seq<T>, ys: seq<T>)
    requires NoDuplicates(xs) && forall x :: x in xs ==> x in ys
    ensures |xs| <= |ys|
  {
    var a, b := set x | x in xs, set y | y in ys;
    DistinctCount(xs);
    SeqCount(ys);
    assert a <= b;
    SubsetCount(a, b);
  }

  lemma {:induction false} SubsetCount<T>(a: set<T>, b: set<T>)
    requires a <= b
    ensures |a| <= |b|
  {
    assert b == a + (b - a);
  }

  lemma {:induction false} DistinctCount<T>(xs: seq<T>)
    requires NoDuplicates(xs)
    ensures |set x | x in xs| == |xs|
  {
    if xs != [] {
      DistinctCount(xs[1..]);
      assert (set x | x in xs) == (set x | x in xs[1..]) + {xs[0]};
      assert xs[0] !in xs[1..];
    }
  }

  lemma {:induction false} SeqCount<T>(xs: seq<T>)
    ensures |set x | x in xs| <= |xs|
  {
    if xs != [] {
      SeqCount(xs[1..]);
      assert (set x | x in xs) == (set x | x in xs[1..]) + {xs[0]};
    }
  }

  /** A tree's key orders safe trees by their number of joins first. */
  lemma RankedTreeIsNoLonger(s: Search, a: seq<PlannedJoin>, b: seq<PlannedJoin>)
    requires s.forbid && Tree(s, a) && Tree(s, b)
    requires !KeyLess(KeyOf(JoinPlan(s.base, a)), KeyOf(JoinPlan(s.base, b)))
    ensures |b| <= |a|
  {
    TreeTables(s, a);
    TreeTables(s, b);
    SafeWhenForbidden(s, a);
    SafeWhenForbidden(s, b);
  }

  lemma SafeWhenForbidden(s: Search, joins: seq<PlannedJoin>)
    requires s.forbid && Tree(s, joins)
    ensures JoinPlan(s.base, joins).IsAdditiveSafe()
  {
    forall j | j in joins
      ensures j.preserves
    {
      var i :| 0 <= i < |joins| && joins[i] == j;
      assert Step(s, Visited(s.base, joins[..i]), joins[i]);
    }
  }

  lemma EmptyTreeConnects(s: Search)
    requires s.terminals == {}
    ensures Connects(s, [])
  {
  }

  lemma CandidatesConnect(s: Search, found: seq<JoinPlan>)
    requires forall f :: f in found ==> f.base == s.base && Candidate(s, f.joins)
    ensures forall f :: f in found ==> Connects(s, f.joins) && Tree(s, f.joins) && s.terminals <= f.Tables()
  {
  }

  /** The rank key contains the references, so equal keys never hide a different meaning. */
  lemma SameKeySameRefs(a: JoinPlan, b: JoinPlan)
    ensures KeyOf(a) == KeyOf(b) ==> RefSet(a.joins) == RefSet(b.joins)
  {
  }

  lemma ConnectingHasCandidate(s: Search, n: nat)
    requires forall c :: Candidate(s, c) ==> n <= |c|
    ensures forall joins :: Connects(s, joins) ==> n <= |joins|
  {
    forall joins | Connects(s, joins)
      ensures n <= |joins|
    {
      var k := CandidateWithin(s, joins);
    }
  }

  lemma NothingConnects(s: Search)
    requires forall c :: !Candidate(s, c)
    ensures forall joins :: !Connects(s, joins)
  {
    forall joins | Connects(s, joins)
      ensures false
    {
      var k := CandidateWithin(s, joins);
    }
  }

  /** With few candidates the enumeration stays below its cap and so finds every one. */
  lemma FewAreAllFound(s: Search, found: seq<JoinPlan>)
    requires NoDuplicates(found) && forall f :: f in found ==> f.base == s.base && Candidate(s, f.joins)
    requires Few(s)
    ensures |found| < MAX_CANDIDATES
  {
    var list: seq<JoinPlan> :| |list| < MAX_CANDIDATES && forall c :: Candidate(s, c) ==> JoinPlan(s.base, c) in list;
    forall f | f in found
      ensures f in list
    {
      assert f == JoinPlan(s.base, f.joins);
    }
    DistinctFit(found, list);
  }

  function SearchFor(bundle: Bundle, scope: Scope, base: TableId, required: set<TableId>, forbid: bool): Search {
    Search(bundle, scope, base, required - {base}, forbid)
  }

  lemma NoJoinsNoRefs()
    ensures RefSet([]) == {}
  {
  }

  method Plan(bundle: Bundle, scope: Scope, base: TableId, required: set<TableId>, refs: set<string>, forbid: bool)
    returns (r: Outcome<JoinPlan>)
    requires DistinctRefs(bundle.relationships)
    // A plan is a tree of permitted edges within the hop limit that covers the terminals.
    ensures var s := SearchFor(bundle, scope, base, required, forbid);
            r.Ok? ==> r.value.base == base && Connects(s, r.value.joins) && required <= r.value.Tables()
    // When the base table covers what is required the plan is empty, and no required relationship is joined.
    ensures required <= {base} ==> r == Ok(JoinPlan(base, []))
    ensures r.Ok? ==> (refs <= RefSet(r.value.joins) <==> refs == {} || !(required <= {base}))
    ensures r.Ok? && forbid ==> r.value.IsAdditiveSafe()
    // The only error is that there is no path; the ambiguity error is never raised.
    ensures r.Raise? ==> r.code == NoApprovedPath
    // Complete and minimal, even when the candidate cap cuts the search.
    ensures var s := SearchFor(bundle, scope, base, required, forbid);
            refs == {} ==> (r.Raise? <==> forall joins :: !Connects(s, joins))
    ensures var s := SearchFor(bundle, scope, base, required, forbid);
            refs == {} && forbid && r.Ok? ==> forall joins :: Connects(s, joins) ==> |r.value.joins| <= |joins|
    // Below the cap the choice is the best-ranked candidate with the required relationships.
    ensures var s := SearchFor(bundle, scope, base, required, forbid);
            Few(s) && s.terminals != {} ==>
              if r.Ok? then Best(s, refs, r.value.joins)
              else forall c :: Candidate(s, c) ==> !(refs <= RefSet(c))
  {
    hide Candidate, Connects, KeyLess, KeyOf, Few, Ranked, RefSet;
    var s := SearchFor(bundle, scope, base, required, forbid);
    if s.terminals == {} {
      EmptyTreeConnects(s);
      NoJoinsNoRefs();
      return Ok(JoinPlan(base, []));
    }
    var found := Enumerate(s);
    if found == [] {
      NothingConnects(s);
      return Raise(NoApprovedPath);
    }
    ConnectingHasCandidate(s, |found[0].joins|);
    if Few(s) {
      FewAreAllFound(s, found);
    }
    CandidatesConnect(s, found);
    var candidates := found;
    if refs != {} {
      candidates := Requiring(found, refs);
      if candidates == [] {
        return Raise(NoApprovedPath);
      }
    }
    var ranked := Rank(candidates);
    FirstRanked(ranked, candidates);
    var best := ranked[0];
    if |ranked| > 1 {
      SameKeySameRefs(ranked[1], best);
      if KeyOf(ranked[1]) == KeyOf(best) && RefSet(ranked[1].joins) != RefSet(best.joins) {
        return Raise(AmbiguousPath);
      }
    }
    if forbid {
      SafeWhenForbidden(s, best.joins);
      if refs == {} {
        RankedTreeIsNoLonger(s, found[0].joins, best.joins);
      }
    }
    r := Ok(best);
  }

  // -- the ranking is strict, so the choice does not depend on listing order ----------------------

  /** Of two different trees exactly one outranks the other: equal rank cannot happen. */
  lemma RankingIsStrict(s: Search, a: seq<PlannedJoin>, b: seq<PlannedJoin>)
    requires DistinctRefs(s.bundle.relationships) && Tree(s, a) && Tree(s, b) && a != b
    ensures KeyLess(KeyOf(JoinPlan(s.base, a)), KeyOf(JoinPlan(s.base, b)))
       <==> !KeyLess(KeyOf(JoinPlan(s.base, b)), KeyOf(JoinPlan(s.base, a)))
  {
    KeyTrichotomy(KeyOf(JoinPlan(s.base, a)), KeyOf(JoinPlan(s.base, b)));
    if RefsOf(a) == RefsOf(b) {
      RefsDetermineJoins(s, a, b);
    }
  }

  /** Two searches that differ only in the order in which the bundle lists its relationships. */
  ghost predicate SameUpToListing(s: Search, u: Search) {
    && s.scope == u.scope && s.base == u.base && s.terminals == u.terminals && s.forbid == u.forbid
    && forall rel :: rel in s.bundle.relationships <==> rel in u.bundle.relationships
  }

  lemma SameCandidates(s: Search, u: Search, joins: seq<PlannedJoin>)
    requires SameUpToListing(s, u) && Candidate(s, joins)
    ensures Candidate(u, joins)
  {
    forall i | 0 <= i < |joins|
      ensures Step(u, Visited(u.base, joins[..i]), joins[i]) && !Covers(u, joins[..i])
    {
      assert Step(s, Visited(s.base, joins[..i]), joins[i]) && !Covers(s, joins[..i]);
    }
  }

  /** With few candidates, two bundles that list the same relationships yield the same plan. */
  lemma ChoiceIgnoresListingOrder(s: Search, u: Search, refs: set<string>, a: seq<PlannedJoin>, b: seq<PlannedJoin>)
    requires DistinctRefs(s.bundle.relationships) && SameUpToListing(s, u)
    requires Best(s, refs, a) && Best(u, refs, b)
    ensures a == b
  {
    SameCandidates(s, u, a);
    SameCandidates(u, s, b);
    if a != b {
      RankingIsStrict(s, a, b);
    }
  }
}
