/** The orders Python's `sorted` uses on strings, tuples of strings and sets of strings. */
module Ordering {
  import opened Values

  predicate NoDuplicates<T(==)>(xs: seq<T>) {
    forall i, j :: 0 <= i < j < |xs| ==> xs[i] != xs[j]
  }

  /** Exactly one of less, equal and greater holds. */
  lemma {:induction false} StringTrichotomy(a: string, b: string)
    ensures (if StringLess(a, b) then 1 else 0) + (if StringLess(b, a) then 1 else 0) + (if a == b then 1 else 0) == 1
  {
    if a != [] && b != [] {
      StringTrichotomy(a[1..], b[1..]);
      assert a == [a[0]] + a[1..] && b == [b[0]] + b[1..];
    }
  }

  lemma {:induction false} StringTransitive(a: string, b: string, c: string)
    requires StringLess(a, b) && StringLess(b, c)
    ensures StringLess(a, c)
  {
    if a != [] && a[0] == b[0] == c[0] {
      StringTransitive(a[1..], b[1..], c[1..]);
    }
  }

  /** Lexicographic order on tuples of strings. */
  predicate SeqLess(a: seq<string>, b: seq<string>) {
    if b == [] then false
    else if a == [] then true
    else StringLess(a[0], b[0]) || (a[0] == b[0] && SeqLess(a[1..], b[1..]))
  }

  lemma {:induction false} SeqTrichotomy(a: seq<string>, b: seq<string>)
    ensures (if SeqLess(a, b) then 1 else 0) + (if SeqLess(b, a) then 1 else 0) + (if a == b then 1 else 0) == 1
  {
    if a != [] && b != [] {
      StringTrichotomy(a[0], b[0]);
      SeqTrichotomy(a[1..], b[1..]);
      assert a == [a[0]] + a[1..] && b == [b[0]] + b[1..];
    }
  }

  lemma {:induction false} SeqTransitive(a: seq<string>, b: seq<string>, c: seq<string>)
    requires SeqLess(a, b) && SeqLess(b, c)
    ensures SeqLess(a, c)
  {
    if a != [] {
      StringTrichotomy(a[0], a[0]);
      if a[0] == b[0] == c[0] {
        SeqTransitive(a[1..], b[1..], c[1..]);
      } else if a[0] != b[0] && b[0] != c[0] {
        StringTransitive(a[0], b[0], c[0]);
      }
    }
  }

  // -- sorting a set of strings ---------------------------------------------------------

  function Insert(s: string, ss: seq<string>): (r: seq<string>)
    ensures forall x :: x in r <==> x == s || x in ss
    ensures |r| == |ss| + 1
  {
    if ss == [] || StringLess(s, ss[0]) then [s] + ss else [ss[0]] + Insert(s, ss[1..])
  }

  /** The members of the set in increasing order. */
  ghost predicate Increasing(ss: seq<string>) {
    forall i, j :: 0 <= i < j < |ss| ==> StringLess(ss[i], ss[j])
  }

  lemma {:induction false} InsertKeepsOrder(s: string, ss: seq<string>)
    requires Increasing(ss) && s !in ss
    ensures Increasing(Insert(s, ss))
  {
    if ss != [] {
      StringTrichotomy(s, ss[0]);
      if StringLess(s, ss[0]) {
        forall j | 0 < j < |ss|
          ensures StringLess(s, ss[j])
        {
          StringTransitive(s, ss[0], ss[j]);
        }
      } else {
        InsertKeepsOrder(s, ss[1..]);
        var r := Insert(s, ss[1..]);
        forall j | 0 <= j < |r|
          ensures StringLess(ss[0], r[j])
        {
          assert r[j] == s || r[j] in ss[1..];
        }
      }
    }
  }

  method SortedSet(xs: set<string>) returns (ss: seq<string>)
    ensures Increasing(ss)
    ensures forall x :: x in ss <==> x in xs
  {
    ss := [];
    var left := xs;
    while left != {}
      invariant left <= xs
      invariant Increasing(ss)
      invariant forall x :: x in ss <==> x in xs - left
      decreases left
    {
      var x :| x in left;
      InsertKeepsOrder(x, ss);
      ss := Insert(x, ss);
      left := left - {x};
    }
  }
}
