/**
  Result validation: the shape, completeness and unique keys of a query's result, and warnings
  for NULLs.
*/
module Results {
  import opened Errors
  import opened Values
  import opened Ordering
  import opened Relational
  import opened Lowering
  import opened Binder

  datatype QueryResult = QueryResult(columns: seq<string>, rows: seq<seq<Value>>, truncated: bool)

  datatype Severity = Info | Warn | Block

  datatype Finding = Finding(code: ReasonCode, severity: Severity)

  predicate Passed(findings: seq<Finding>) {
    forall f :: f in findings ==> !f.severity.Block?
  }

  /** The position of the first column with a name. */
  function IndexOf(columns: seq<string>, name: string): (i: nat)
    requires name in columns
    ensures i < |columns| && columns[i] == name && forall j :: 0 <= j < i ==> columns[j] != name
  {
    if columns[0] == name then 0 else 1 + IndexOf(columns[1..], name)
  }

  function KeyAt(columns: seq<string>, keys: seq<string>, row: seq<Value>): (k: seq<Value>)
    requires (forall name :: name in keys ==> name in columns) && |row| == |columns|
    ensures |k| == |keys|
  {
    if keys == [] then []
    else
      assert keys[0] in keys && forall name :: name in keys[1..] ==> name in keys;
      [row[IndexOf(columns, keys[0])]] + KeyAt(columns, keys[1..], row)
  }

  lemma {:induction false} KeyAtIs(columns: seq<string>, keys: seq<string>, row: seq<Value>, i: nat)
    requires (forall name :: name in keys ==> name in columns) && |row| == |columns| && i < |keys|
    ensures keys[i] in columns && KeyAt(columns, keys, row)[i] == row[IndexOf(columns, keys[i])]
  {
    hide IndexOf;
    assert keys[0] in keys && forall name :: name in keys[1..] ==> name in keys;
    if i > 0 {
      KeyAtIs(columns, keys[1..], row, i - 1);
    }
  }

  function RowKeys(columns: seq<string>, keys: seq<string>, rows: seq<seq<Value>>): (ks: seq<Key>)
    requires (forall name :: name in keys ==> name in columns) && forall r :: r in rows ==> |r| == |columns|
    ensures |ks| == |rows|
  {
    if rows == [] then []
    else
      assert rows[0] in rows && forall r :: r in rows[1..] ==> r in rows;
      [KeyAt(columns, keys, rows[0])] + RowKeys(columns, keys, rows[1..])
  }

  lemma {:induction false} RowKeyIs(columns: seq<string>, keys: seq<string>, rows: seq<seq<Value>>, i: nat)
    requires (forall name :: name in keys ==> name in columns) && (forall r :: r in rows ==> |r| == |columns|) && i < |rows|
    ensures |rows[i]| == |columns| && RowKeys(columns, keys, rows)[i] == KeyAt(columns, keys, rows[i])
  {
    hide KeyAt;
    assert rows[0] in rows && forall r :: r in rows[1..] ==> r in rows;
    if i > 0 {
      RowKeyIs(columns, keys, rows[1..], i - 1);
    }
  }

  /** No two rows agree on the key columns. */
  predicate KeysUnique(columns: seq<string>, keys: seq<string>, rows: seq<seq<Value>>)
    requires (forall name :: name in keys ==> name in columns) && forall r :: r in rows ==> |r| == |columns|
  {
    NoDuplicates(RowKeys(columns, keys, rows))
  }

  predicate WellShaped(c: Contract, rows: seq<seq<Value>>) {
    (forall name :: name in c.uniqueKeys ==> name in c.columns) && forall r :: r in rows ==> |r| == |c.columns|
  }

  method DuplicateKeys(c: Contract, rows: seq<seq<Value>>) returns (duplicates: seq<Key>)
    requires WellShaped(c, rows)
    ensures duplicates == [] <==> KeysUnique(c.columns, c.uniqueKeys, rows)
  {
    hide NoDuplicates, KeyAt, RowKeys;
    duplicates := [];
    var seen: set<Key> := {};
    ghost var ks := RowKeys(c.columns, c.uniqueKeys, rows);
    NoneDistinct();
    for i := 0 to |rows|
      invariant forall k :: k in seen <==> k in ks[..i]
      invariant duplicates == [] <==> NoDuplicates(ks[..i])
    {
      assert rows[i] in rows;
      var key := KeyAt(c.columns, c.uniqueKeys, rows[i]);
      RowKeyIs(c.columns, c.uniqueKeys, rows, i);
      assert ks[i] == key && ks[..i + 1] == ks[..i] + [key];
      NextIsDistinct(ks[..i], key);
      if key in seen {
        duplicates := duplicates + [key];
      }
      seen := seen + {key};
    }
    assert ks[..|rows|] == ks;
  }

  lemma NoneDistinct()
    ensures NoDuplicates<Key>([])
  {
  }

  lemma NextIsDistinct(ks: seq<Key>, k: Key)
    ensures NoDuplicates(ks + [k]) <==> NoDuplicates(ks) && k !in ks
  {
    var all := ks + [k];
    if NoDuplicates(all) {
      forall i | 0 <= i < |ks|
        ensures ks[i] != k
      {
        assert all[i] == ks[i] && all[|ks|] == k;
      }
      forall i, j | 0 <= i < j < |ks|
        ensures ks[i] != ks[j]
      {
        assert all[i] == ks[i] && all[j] == ks[j];
      }
    }
  }

  predicate AnyNull(columns: seq<string>, name: string, rows: seq<seq<Value>>)
    requires forall r :: r in rows ==> |r| == |columns|
  {
    name in columns && exists r :: r in rows && r[IndexOf(columns, name)] == Null
  }

  /** A named column is shown and holds a NaN. */
  predicate AnyNaN(columns: seq<string>, name: string, rows: seq<seq<Value>>, isNaN: Value -> bool)
    requires forall r :: r in rows ==> |r| == |columns|
  {
    name in columns && exists r :: r in rows && isNaN(r[IndexOf(columns, name)])
  }

  predicate SomeNaN(columns: seq<string>, names: seq<string>, rows: seq<seq<Value>>, isNaN: Value -> bool)
    requires forall r :: r in rows ==> |r| == |columns|
  {
    exists name :: name in names && AnyNaN(columns, name, rows, isNaN)
  }

  /** The result passes exactly when its shape is the contract's, it is complete, its keys are unique and no measure is NaN. */
  method ValidateResult(result: QueryResult, plan: BoundPlan, isNaN: Value -> bool) returns (findings: seq<Finding>)
    requires WellShaped(plan.contract, result.rows)
    ensures Passed(findings) <==>
              && result.columns == plan.contract.columns && !result.truncated
              && (plan.contract.uniqueKeys == [] || KeysUnique(plan.contract.columns, plan.contract.uniqueKeys, result.rows))
              && !SomeNaN(plan.contract.columns, MetricNames(plan.metrics), result.rows, isNaN)
    ensures Finding(ResultContractBreach, Info) in findings <==> result.columns == plan.contract.columns && result.rows == []
    ensures Finding(ResultContractBreach, Warn) in findings <==>
              && result.columns == plan.contract.columns
              && (SomeNull(plan.contract.columns, MetricNames(plan.metrics), result.rows)
                  || SomeNull(plan.contract.columns, DimensionOutputs(plan.dimensions), result.rows))
  {
    hide KeysUnique, SomeNull, SomeNaN, WellShaped, MetricNames, DimensionOutputs;
    var c := plan.contract;
    if result.columns != c.columns {
      return [Finding(ResultContractBreach, Block)];
    }
    var broken := if result.truncated then [Finding(ResultContractBreach, Block)] else [];
    if c.uniqueKeys != [] {
      var duplicates := DuplicateKeys(c, result.rows);
      if duplicates != [] {
        broken := broken + [Finding(ResultContractBreach, Block)];
      }
    }
    var empty := if result.rows == [] then [Finding(ResultContractBreach, Info)] else [];
    assert forall r :: r in result.rows ==> |r| == |c.columns| by { WellShapedRows(c, result.rows); }
    var measures := NullWarnings(c.columns, MetricNames(plan.metrics), result.rows);
    var dimensions := NullWarnings(c.columns, DimensionOutputs(plan.dimensions), result.rows);
    var numbers := NaNBlocks(c.columns, MetricNames(plan.metrics), result.rows, isNaN);
    Sorted(broken + numbers, empty, measures + dimensions);
    findings := (broken + numbers) + empty + (measures + dimensions);
  }

  lemma WellShapedRows(c: Contract, rows: seq<seq<Value>>)
    requires WellShaped(c, rows)
    ensures forall r :: r in rows ==> |r| == |c.columns|
  {
  }

  lemma Sorted(blocks: seq<Finding>, infos: seq<Finding>, warns: seq<Finding>)
    requires forall f :: f in blocks ==> f == Finding(ResultContractBreach, Block)
    requires forall f :: f in infos ==> f == Finding(ResultContractBreach, Info)
    requires forall f :: f in warns ==> f == Finding(ResultContractBreach, Warn)
    ensures var all := blocks + infos + warns;
            && (Passed(all) <==> blocks == [])
            && (Finding(ResultContractBreach, Info) in all <==> infos != [])
            && (Finding(ResultContractBreach, Warn) in all <==> warns != [])
  {
    var all := blocks + infos + warns;
    if blocks != [] {
      assert blocks[0] in blocks && blocks[0] in all;
    }
    if infos != [] {
      assert infos[0] in infos && infos[0] in all;
    }
    if warns != [] {
      assert warns[0] in warns && warns[0] in all;
    }
  }

  function MetricNames(ms: seq<BoundMetric>): (names: seq<string>)
    ensures |names| == |ms| && forall i :: 0 <= i < |ms| ==> names[i] == ms[i].alias
  {
    if ms == [] then [] else [ms[0].alias] + MetricNames(ms[1..])
  }

  predicate SomeNull(columns: seq<string>, names: seq<string>, rows: seq<seq<Value>>)
    requires forall r :: r in rows ==> |r| == |columns|
  {
    exists name :: name in names && AnyNull(columns, name, rows)
  }

  /** One blocking finding per named column that holds a NaN. */
  method NaNBlocks(columns: seq<string>, names: seq<string>, rows: seq<seq<Value>>, isNaN: Value -> bool) returns (out: seq<Finding>)
    requires forall r :: r in rows ==> |r| == |columns|
    ensures out != [] <==> SomeNaN(columns, names, rows, isNaN)
    ensures forall f :: f in out ==> f == Finding(ResultContractBreach, Block)
  {
    out := [];
    for i := 0 to |names|
      invariant out != [] <==> exists n :: 0 <= n < i && AnyNaN(columns, names[n], rows, isNaN)
      invariant forall f :: f in out ==> f == Finding(ResultContractBreach, Block)
    {
      if AnyNaN(columns, names[i], rows, isNaN) {
        out := out + [Finding(ResultContractBreach, Block)];
      }
    }
  }

  /** One warning per named column that holds a NULL. */
  method NullWarnings(columns: seq<string>, names: seq<string>, rows: seq<seq<Value>>) returns (out: seq<Finding>)
    requires forall r :: r in rows ==> |r| == |columns|
    ensures out != [] <==> SomeNull(columns, names, rows)
    ensures forall f :: f in out ==> f == Finding(ResultContractBreach, Warn)
  {
    out := [];
    for i := 0 to |names|
      invariant out != [] <==> exists n :: 0 <= n < i && AnyNull(columns, names[n], rows)
      invariant forall f :: f in out ==> f == Finding(ResultContractBreach, Warn)
    {
      if AnyNull(columns, names[i], rows) {
        out := out + [Finding(ResultContractBreach, Warn)];
      }
    }
  }
}
