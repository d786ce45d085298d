/** Bounded repair: the only change it can make is to drop sort keys that name no output column. */
module Repairs {
  import opened Errors
  import opened Values
  import opened Expressions
  import opened Catalog
  import opened Plans
  import opened Binder

  const MAX_REPAIR_ATTEMPTS := 2
  const Repairable: set<ReasonCode> := {ValidationFailed, CompilerDefect}

  /** A repair may not alter the metric, period, filters or attribution, nor widen the limit. */
  function Guard(original: Request, repaired: Request): Outcome<()> {
    if original.metricIds != repaired.metricIds || original.timeRange != repaired.timeRange
       || original.filters != repaired.filters || original.attribution != repaired.attribution then Raise(ValidationFailed)
    else if repaired.limit.Some? && (original.limit.None? || repaired.limit.value > original.limit.value) then Raise(ValidationFailed)
    else Ok(())
  }

  function KeepNamed(keys: seq<SortKey>, columns: seq<string>): (out: seq<SortKey>)
    ensures |out| <= |keys|
    ensures forall k :: k in out <==> k in keys && k.field in columns
  {
    if keys == [] then []
    else (if keys[0].field in columns then [keys[0]] else []) + KeepNamed(keys[1..], columns)
  }

  lemma {:induction false} KeepsAll(keys: seq<SortKey>, columns: seq<string>)
    ensures |KeepNamed(keys, columns)| == |keys| <==> forall k :: k in keys ==> k.field in columns
    ensures (forall k :: k in keys ==> k.field in columns) ==> KeepNamed(keys, columns) == keys
  {
    if keys != [] {
      assert keys[0] in keys && forall k :: k in keys[1..] ==> k in keys;
      KeepsAll(keys[1..], columns);
      if forall k :: k in keys[1..] ==> k.field in columns {
        assert forall k :: k in keys ==> k == keys[0] || k in keys[1..];
      }
    }
  }

  /** The repaired request, or nothing when no repair is safe. */
  function ProposeRepair(request: Request, codes: set<ReasonCode>, columns: seq<string>): Outcome<Option<Request>> {
    if codes * Repairable == {} then Ok(None)
    else
      var valid := KeepNamed(request.orderBy, columns);
      if columns == [] || |valid| == |request.orderBy| then Ok(None)
      else
        var repaired := request.(orderBy := valid);
        var _ :- Guard(request, repaired);
        Ok(Some(repaired))
  }

  /**
    A repair happens exactly when a repairable finding meets a sort key that names no known
    column; it drops those keys and changes nothing else, and its own guard never fires.
  */
  lemma RepairOnlyDropsKeys(request: Request, codes: set<ReasonCode>, columns: seq<string>)
    ensures ProposeRepair(request, codes, columns).Ok?
    ensures var r := ProposeRepair(request, codes, columns).value;
            && (r.Some? <==> codes * Repairable != {} && columns != [] && exists k :: k in request.orderBy && k.field !in columns)
            && (r.Some? ==> r.value == request.(orderBy := KeepNamed(request.orderBy, columns)))
  {
    KeepsAll(request.orderBy, columns);
  }

  /** What a repair keeps is named by the columns, so a second repair over the same columns does nothing. */
  lemma RepairsOnce(request: Request, codes: set<ReasonCode>, again: set<ReasonCode>, columns: seq<string>)
    requires ProposeRepair(request, codes, columns).Ok? && ProposeRepair(request, codes, columns).value.Some?
    ensures ProposeRepair(ProposeRepair(request, codes, columns).value.value, again, columns) == Ok(None)
  {
    RepairOnlyDropsKeys(request, codes, columns);
    RepairOnlyDropsKeys(ProposeRepair(request, codes, columns).value.value, again, columns);
  }

  /** A repaired request has no unknown sort key left, as the binder sees them. */
  lemma RepairedSortKeysAreKnown(bundle: Bundle, request: Request, codes: set<ReasonCode>)
    requires var r := ProposeRepair(request, codes, ExpectedColumns(bundle, request)); r.Ok? && r.value.Some?
    ensures var repaired := ProposeRepair(request, codes, ExpectedColumns(bundle, request)).value.value;
            && ExpectedColumns(bundle, repaired) == ExpectedColumns(bundle, request)
            && forall k :: k in repaired.orderBy ==> k.field in ExpectedColumns(bundle, repaired)
  {
    RepairOnlyDropsKeys(request, codes, ExpectedColumns(bundle, request));
  }
}
