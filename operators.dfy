/**
 * The ClusterOperator tools of the cluster toolset: condition statuses, the
 * status filter of the operator list and the single-operator lookup.
 */
module Operators {
  import opened Wrappers
  import opened Text
  import opened Seqs
  import opened Unstructured
  import opened Index
  import opened GoMaps
  import opened Provider
  import opened Conditions
  import Nodes
  import MonitoringHelpers

  /** `formatStatus`: a mark for "True" and "False", "? Unknown" for anything else. */
  function FormatStatus(status: string): (r: string)
    ensures status == "True" ==> r == "✓ True"
    ensures status == "False" ==> r == "✗ False"
    ensures status != "True" && status != "False" ==> r == "? Unknown"
  {
    if status == "True" then "✓ True"
    else if status == "False" then "✗ False"
    else "? Unknown"
  }

  /** The mark tells "True", "False" and the rest apart, and nothing more. */
  lemma FormatStatusDistinguishes(a: string, b: string)
    ensures FormatStatus(a) == FormatStatus(b) <==>
              a == b || (a != "True" && a != "False" && b != "True" && b != "False")
  {
  }

  /** The three conditions the operator table shows. */
  datatype OperatorRow = OperatorRow(name: string, available: string, progressing: string, degraded: string)

  /** The row of `clusterOperatorsList`: the name and the first status of each of the three condition types. */
  function RowOf(op: Object): (row: OperatorRow)
    ensures row.name == GetName(op)
    ensures row.available == ConditionStatus(op, "Available")
    ensures row.progressing == ConditionStatus(op, "Progressing")
    ensures row.degraded == ConditionStatus(op, "Degraded")
  {
    OperatorRow(GetName(op), ConditionStatus(op, "Available"), ConditionStatus(op, "Progressing"),
                ConditionStatus(op, "Degraded"))
  }

  /** The status filter of `clusterOperatorsList`. */
  predicate Passes(row: OperatorRow, statusFilter: string)
    ensures Passes(row, statusFilter) ==> statusFilter in {"all", "degraded", "progressing", "unavailable"}
  {
    if statusFilter == "all" then true
    else if statusFilter == "degraded" then row.degraded == "True"
    else if statusFilter == "progressing" then row.progressing == "True"
    else if statusFilter == "unavailable" then row.available == "False"
    else false
  }

  /** What each filter value keeps; an unrecognised one keeps nothing. */
  lemma PassesMeaning(op: Object, statusFilter: string)
    ensures Passes(RowOf(op), statusFilter) <==>
              statusFilter == "all" ||
              (statusFilter == "degraded" && ConditionStatus(op, "Degraded") == "True") ||
              (statusFilter == "progressing" && ConditionStatus(op, "Progressing") == "True") ||
              (statusFilter == "unavailable" && ConditionStatus(op, "Available") == "False")
  {
  }

  function PassingOp(statusFilter: string): Object -> bool {
    (op: Object) => Passes(RowOf(op), statusFilter)
  }

  /** The rows the filter keeps: the row of each passing operator, in order. */
  function RowsOf(ops: seq<Object>, statusFilter: string): (rows: seq<OperatorRow>)
    ensures |rows| == |Filter(ops, PassingOp(statusFilter))| <= |ops|
    ensures forall i :: 0 <= i < |rows| ==> rows[i] == RowOf(Filter(ops, PassingOp(statusFilter))[i])
    ensures forall row :: row in rows ==> Passes(row, statusFilter)
    ensures statusFilter == "all" ==> |rows| == |ops|
  {
    if |ops| == 0 then []
    else
      var rest := RowsOf(ops[..|ops| - 1], statusFilter);
      var row := RowOf(ops[|ops| - 1]);
      if Passes(row, statusFilter) then rest + [row] else rest
  }

  /** Every operator that passes the filter gets its row. */
  lemma RowsComplete(ops: seq<Object>, statusFilter: string, op: Object)
    requires op in ops && Passes(RowOf(op), statusFilter)
    ensures RowOf(op) in RowsOf(ops, statusFilter)
  {
    var kept := Filter(ops, PassingOp(statusFilter));
    assert op in kept;
    var i :| 0 <= i < |kept| && kept[i] == op;
    assert RowsOf(ops, statusFilter)[i] == RowOf(op);
  }

  /** No filter but "all", "degraded", "progressing" and "unavailable" lists any operator. */
  lemma {:induction false} UnknownFilterListsNothing(ops: seq<Object>, statusFilter: string)
    requires statusFilter !in {"all", "degraded", "progressing", "unavailable"}
    ensures RowsOf(ops, statusFilter) == []
  {
    if |ops| > 0 {
      UnknownFilterListsNothing(ops[..|ops| - 1], statusFilter);
    }
  }

  datatype OperatorListing = NoOperators | OperatorTable(total: nat, rows: seq<OperatorRow>, filteredCount: nat)

  /** The table loop over the sorted operators, counting what it shows. */
  method OperatorRows(ops: seq<Object>, statusFilter: string) returns (rows: seq<OperatorRow>, filteredCount: nat)
    ensures rows == RowsOf(ops, statusFilter)
    ensures filteredCount == |rows|
  {
    rows := [];
    filteredCount := 0;
    for i := 0 to |ops|
      invariant rows == RowsOf(ops[..i], statusFilter)
      invariant filteredCount == |rows|
    {
      assert ops[..i + 1][..i] == ops[..i];
      var row := RowOf(ops[i]);
      if statusFilter != "all" {
        var shouldInclude := false;
        if statusFilter == "degraded" {
          shouldInclude := row.degraded == "True";
        } else if statusFilter == "progressing" {
          shouldInclude := row.progressing == "True";
        } else if statusFilter == "unavailable" {
          shouldInclude := row.available == "False";
        }
        if !shouldInclude {
          continue;
        }
      }
      filteredCount := filteredCount + 1;
      rows := rows + [row];
    }
    assert ops[..|ops|] == ops;
  }

  /** `parseGVK("config.openshift.io/v1", "ClusterOperator")`. */
  function OperatorKind(): (g: GVK)
    ensures g == GVK("config.openshift.io", "v1", "ClusterOperator")
  {
    MonitoringHelpers.ParseGVKRoundTrip("config.openshift.io", "v1", "ClusterOperator");
    assert GroupVersionString("config.openshift.io", "v1") == "config.openshift.io/v1";
    MonitoringHelpers.ParseGVK("config.openshift.io/v1", "ClusterOperator")
  }

  /**
   * `clusterOperatorsList`: "No cluster operators found" without operators;
   * otherwise the total, the operators sorted by name that the status filter
   * keeps, and how many it kept.
   */
  method ClusterOperatorsList(p: Provider, statusFilter: string)
    returns (r: Result<OperatorListing, ProviderError>, ghost listed: seq<Object>)
    requires p.Valid()
    ensures Enumerates(listed, BucketOf(p.index.byGVK, GVK("config.openshift.io", "v1", "ClusterOperator")))
    ensures r.Ok?
    ensures r.value.NoOperators? <==> |listed| == 0
    ensures r.value.OperatorTable? ==>
              r.value.total == |listed| && r.value.filteredCount == |r.value.rows| &&
              exists sorted :: multiset(sorted) == multiset(listed) && SortedBy(sorted, Nodes.NameLess) &&
                               r.value.rows == RowsOf(sorted, statusFilter)
  {
    var list;
    list, listed := p.ListResources(OperatorKind(), "", ListOptions("", "", 0));
    if list.Err? {
      assert false;
    }
    assert list.value.items == listed;
    var ops := list.value.items;
    if |ops| == 0 {
      return Ok(NoOperators), listed;
    }
    Nodes.NameOrderStrict();
    var sorted := SortBy(ops, Nodes.NameLess);
    var rows, filteredCount := OperatorRows(sorted, statusFilter);
    return Ok(OperatorTable(|ops|, rows, filteredCount)), listed;
  }

  datatype OperatorError = NameRequired | OperatorNotFound(name: string)

  /**
   * `clusterOperatorGet`: an empty name is an error; otherwise the first
   * listed operator with that name, or an error when there is none.
   */
  method ClusterOperatorGet(p: Provider, name: string) returns (r: Result<Object, OperatorError>, ghost listed: seq<Object>)
    requires p.Valid()
    ensures r == Err(NameRequired) <==> name == ""
    ensures name != "" ==> Enumerates(listed, BucketOf(p.index.byGVK, GVK("config.openshift.io", "v1", "ClusterOperator")))
    ensures name != "" ==> (r == Err(OperatorNotFound(name)) <==> forall i :: 0 <= i < |listed| ==> GetName(listed[i]) != name)
    ensures r.Ok? ==> exists i :: 0 <= i < |listed| && listed[i] == r.value && GetName(listed[i]) == name &&
                                  forall k :: 0 <= k < i ==> GetName(listed[k]) != name
  {
    listed := [];
    if name == "" {
      return Err(NameRequired), listed;
    }
    var kind := OperatorKind();
    var items;
    items, listed := p.ListKind(kind);
    r := Pick(items, name);
    assert r.Err? ==> r.error == OperatorNotFound(name);
  }

  /** The first item with the name, or the not-found error. */
  method Pick(items: seq<Object>, name: string) returns (r: Result<Object, OperatorError>)
    ensures r == Err(OperatorNotFound(name)) <==> forall i :: 0 <= i < |items| ==> GetName(items[i]) != name
    ensures r.Err? ==> r == Err(OperatorNotFound(name))
    ensures r.Ok? ==> exists i :: 0 <= i < |items| && items[i] == r.value && GetName(items[i]) == name &&
                                  forall k :: 0 <= k < i ==> GetName(items[k]) != name
  {
    var found := Nodes.FindByName(items, name);
    if found.None? {
      return Err(OperatorNotFound(name));
    }
    return Ok(items[found.value]);
  }
}
