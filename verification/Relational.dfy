/**
  Bag operators over rows, shared by the meaning of a plan and the meaning of SQL text. A
  bag is kept as a sequence; every equality proved about sequences is stronger than the
  bag equality it implies.
*/
module Relational {
  import opened Values
  import opened Expressions

  type Key = seq<Value>

  function Filter<T(!new)>(ts: seq<T>, keep: T -> bool): (rs: seq<T>)
    ensures |rs| <= |ts|
    ensures forall r :: r in rs <==> r in ts && keep(r)
  {
    if ts == [] then []
    else (if keep(ts[0]) then [ts[0]] else []) + Filter(ts[1..], keep)
  }

  /** Every row of `rows` that the tuple joins with under `on`. */
  function Matching<K>(on: Tuple<K> -> bool, t: Tuple<K>, key: K, rows: seq<Row>): seq<Tuple<K>> {
    if rows == [] then []
    else (if on(t[key := rows[0]]) then [t[key := rows[0]]] else []) + Matching(on, t, key, rows[1..])
  }

  /** A left join keeps an unmatched tuple and gives it an empty, all-NULL row. */
  function JoinOne<K>(on: Tuple<K> -> bool, t: Tuple<K>, key: K, rows: seq<Row>, outer: bool): seq<Tuple<K>> {
    var ms := Matching(on, t, key, rows);
    if ms == [] && outer then [t[key := map[]]] else ms
  }

  function JoinAll<K>(on: Tuple<K> -> bool, ts: seq<Tuple<K>>, key: K, rows: seq<Row>, outer: bool): seq<Tuple<K>> {
    if ts == [] then [] else JoinOne(on, ts[0], key, rows, outer) + JoinAll(on, ts[1..], key, rows, outer)
  }

  function ScanRows<K>(key: K, rows: seq<Row>): (ts: seq<Tuple<K>>)
    ensures |ts| == |rows|
    ensures forall i :: 0 <= i < |rows| ==> ts[i] == map[key := rows[i]]
  {
    if rows == [] then [] else [map[key := rows[0]]] + ScanRows(key, rows[1..])
  }

  // -- grouping ------------------------------------------------------------------

  function KeysOf<T>(ts: seq<T>, keyOf: T -> Key): (ks: seq<Key>)
    ensures |ks| == |ts|
    ensures forall i :: 0 <= i < |ts| ==> ks[i] == keyOf(ts[i])
  {
    if ts == [] then [] else [keyOf(ts[0])] + KeysOf(ts[1..], keyOf)
  }

  /** The distinct keys in order of first occurrence. */
  function FirstSeen(ks: seq<Key>): (ds: seq<Key>)
    ensures forall k :: k in ds <==> k in ks
    ensures forall i, j :: 0 <= i < j < |ds| ==> ds[i] != ds[j]
  {
    if ks == [] then []
    else
      var n := |ks| - 1;
      var ds := FirstSeen(ks[..n]);
      assert ks == ks[..n] + [ks[n]];
      if ks[n] in ds then ds else ds + [ks[n]]
  }

  /** The rows whose key is `k`. */
  function Members<T>(ts: seq<T>, ks: seq<Key>, k: Key): seq<T>
    requires |ts| == |ks|
  {
    if ts == [] then []
    else (if ks[0] == k then [ts[0]] else []) + Members(ts[1..], ks[1..], k)
  }

  /** Without a GROUP BY there is exactly one group, even over no rows. */
  function GroupKeys(grouped: bool, ks: seq<Key>): seq<Key> {
    if grouped then FirstSeen(ks) else [[]]
  }

  function GroupMembers<T>(grouped: bool, ts: seq<T>, ks: seq<Key>, k: Key): seq<T>
    requires |ts| == |ks|
  {
    if grouped then Members(ts, ks, k) else ts
  }

  // -- laws ------------------------------------------------------------------------

  lemma {:induction false} FilterConcat<T(!new)>(a: seq<T>, b: seq<T>, keep: T -> bool)
    ensures Filter(a + b, keep) == Filter(a, keep) + Filter(b, keep)
  {
    if a == [] {
      assert a + b == b;
    } else {
      var ab := a + b;
      assert ab[1..] == a[1..] + b && ab[0] == a[0];
      FilterConcat(a[1..], b, keep);
      var head, x, y := if keep(a[0]) then [a[0]] else [], Filter(a[1..], keep), Filter(b, keep);
      assert Filter(ab, keep) == head + (x + y) == (head + x) + y;
    }
  }

  lemma {:induction false} FilterAgrees<T(!new)>(ts: seq<T>, p: T -> bool, q: T -> bool)
    requires forall t :: t in ts ==> p(t) == q(t)
    ensures Filter(ts, p) == Filter(ts, q)
  {
    if ts != [] {
      assert forall t :: t in ts[1..] ==> t in ts;
      FilterAgrees(ts[1..], p, q);
    }
  }

  /** A filter absorbs an earlier filter that it implies. */
  lemma {:induction false} FilterAbsorbs<T(!new)>(ts: seq<T>, weak: T -> bool, strong: T -> bool)
    requires forall t :: t in ts && strong(t) ==> weak(t)
    ensures Filter(Filter(ts, weak), strong) == Filter(ts, strong)
  {
    if ts != [] {
      assert forall t :: t in ts[1..] ==> t in ts;
      FilterAbsorbs(ts[1..], weak, strong);
      FilterConcat(if weak(ts[0]) then [ts[0]] else [], Filter(ts[1..], weak), strong);
    }
  }

  lemma {:induction false} JoinAllConcat<K>(on: Tuple<K> -> bool, a: seq<Tuple<K>>, b: seq<Tuple<K>>,
                                            key: K, rows: seq<Row>, outer: bool)
    ensures JoinAll(on, a + b, key, rows, outer) == JoinAll(on, a, key, rows, outer) + JoinAll(on, b, key, rows, outer)
  {
    if a == [] {
      assert a + b == b;
    } else {
      hide JoinOne;
      var ab := a + b;
      assert ab[1..] == a[1..] + b && ab[0] == a[0];
      JoinAllConcat(on, a[1..], b, key, rows, outer);
      var head, x, y := JoinOne(on, a[0], key, rows, outer),
        JoinAll(on, a[1..], key, rows, outer), JoinAll(on, b, key, rows, outer);
      assert JoinAll(on, ab, key, rows, outer) == head + (x + y) == (head + x) + y;
    }
  }
}
