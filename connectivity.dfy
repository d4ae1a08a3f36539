/**
 * The pod network connectivity report of the network toolset: the checks
 * of "podnetworkconnectivitychecks.yaml", their "Reachable" condition, the
 * failing and degraded counts and the status filter.
 */
module Connectivity {
  import opened Wrappers
  import opened Text
  import opened Seqs
  import opened FileTree
  import opened Unstructured
  import opened Conditions
  import Loader
  import Nodes

  function ConnectivityFile(containerDir: Path): Path {
    containerDir + ["pod_network_connectivity_check", "podnetworkconnectivitychecks.yaml"]
  }

  datatype ConnectivityError =
    | DataNotFound
    | ReadFailed(cause: FsError)
    | ParseFailed
    | NoChecks

  // ---------------------------------------------------------------- conditions

  /** `getConnectivityCondition(check, "Reachable")`. */
  function Reachable(check: Object): string { ConditionStatus(check, "Reachable") }

  /**
   * `getConnectivityMessage`: the string message of the first condition of
   * the type that has one (not necessarily the one that gave the status), else "".
   */
  function ConditionMessage(check: Object, condType: string): (m: string)
    ensures StatusConditions(check).None? ==> m == ""
    ensures StatusConditions(check).Some? && ConditionField(StatusConditions(check).value, condType, "message").Some? ==>
              m == ConditionField(StatusConditions(check).value, condType, "message").value
    ensures StatusConditions(check).Some? && ConditionField(StatusConditions(check).value, condType, "message").None? ==>
              m == ""
  {
    match StatusConditions(check)
    case None => ""
    case Some(conds) =>
      match ConditionField(conds, condType, "message")
      case Some(msg) => msg
      case None => ""
  }

  predicate Failing(check: Object) { Reachable(check) == "False" }

  /** Neither reachable nor failing: any status but "True" and "False", "Unknown" included. */
  predicate Degraded(check: Object) { Reachable(check) != "True" && Reachable(check) != "False" }

  /** The status filter: "all", "failing", "degraded"; any other value keeps nothing. */
  predicate Keeps(statusFilter: string, check: Object) {
    if statusFilter == "all" then true
    else if statusFilter == "failing" then Failing(check)
    else if statusFilter == "degraded" then Degraded(check)
    else false
  }

  function KeepFilter(statusFilter: string): Object -> bool {
    (c: Object) => Keeps(statusFilter, c)
  }

  /** No check is both failing and degraded, so the two counts never exceed the total. */
  lemma {:induction false} CountsBound(checks: seq<Object>)
    ensures |Filter(checks, Failing)| + |Filter(checks, Degraded)| <= |checks|
  {
    if |checks| > 0 {
      CountsBound(checks[..|checks| - 1]);
    }
  }

  /** The "failing" filter shows exactly the checks counted as failing. */
  lemma {:induction false} FailingFilterIsCounted(checks: seq<Object>)
    ensures Filter(checks, KeepFilter("failing")) == Filter(checks, Failing)
  {
    if |checks| > 0 {
      FailingFilterIsCounted(checks[..|checks| - 1]);
      assert KeepFilter("failing")(checks[|checks| - 1]) == Failing(checks[|checks| - 1]);
    }
  }

  /** The "degraded" filter shows exactly the checks counted as degraded. */
  lemma {:induction false} DegradedFilterIsCounted(checks: seq<Object>)
    ensures Filter(checks, KeepFilter("degraded")) == Filter(checks, Degraded)
  {
    if |checks| > 0 {
      DegradedFilterIsCounted(checks[..|checks| - 1]);
      assert KeepFilter("degraded")(checks[|checks| - 1]) == Degraded(checks[|checks| - 1]);
    }
  }

  /** "all" shows every check. */
  lemma {:induction false} AllFilterKeepsAll(checks: seq<Object>)
    ensures Filter(checks, KeepFilter("all")) == checks
  {
    if |checks| > 0 {
      AllFilterKeepsAll(checks[..|checks| - 1]);
      assert checks == checks[..|checks| - 1] + [checks[|checks| - 1]];
    }
  }

  // ---------------------------------------------------------------- checks

  /** The map items of the "items" list, each as an object. */
  function CheckObjects(items: seq<Value>): (r: seq<Object>)
    ensures |r| <= |items|
    ensures forall o :: o in r ==> VMap(o) in items
  {
    if |items| == 0 then []
    else
      var rest := CheckObjects(items[..|items| - 1]);
      var last := items[|items| - 1];
      if last.VMap? then rest + [last.fields] else rest
  }

  lemma {:induction false} CheckObjectsComplete(items: seq<Value>, o: Object)
    requires VMap(o) in items
    ensures o in CheckObjects(items)
  {
    var init := items[..|items| - 1];
    if items[|items| - 1] != VMap(o) {
      assert items == init + [items[|items| - 1]];
      CheckObjectsComplete(init, o);
    }
  }

  method CollectChecks(items: seq<Value>) returns (checks: seq<Object>)
    ensures checks == CheckObjects(items)
  {
    checks := [];
    for i := 0 to |items|
      invariant checks == CheckObjects(items[..i])
    {
      assert items[..i + 1][..i] == items[..i];
      if items[i].VMap? {
        checks := checks + [items[i].fields];
      }
    }
    assert items[..|items|] == items;
  }

  /** The counting and filtering loop over the sorted checks. */
  method CountAndFilter(checks: seq<Object>, statusFilter: string)
    returns (failing: nat, degraded: nat, filtered: seq<Object>)
    ensures failing == |Filter(checks, Failing)|
    ensures degraded == |Filter(checks, Degraded)|
    ensures filtered == Filter(checks, KeepFilter(statusFilter))
  {
    failing, degraded, filtered := 0, 0, [];
    for i := 0 to |checks|
      invariant failing == |Filter(checks[..i], Failing)|
      invariant degraded == |Filter(checks[..i], Degraded)|
      invariant filtered == Filter(checks[..i], KeepFilter(statusFilter))
    {
      FilterStep(checks, i, Failing);
      FilterStep(checks, i, Degraded);
      FilterStep(checks, i, KeepFilter(statusFilter));
      var check := checks[i];
      var reachable := Reachable(check);
      if reachable == "False" {
        failing := failing + 1;
      } else if reachable != "True" {
        degraded := degraded + 1;
      }
      if statusFilter != "all" {
        var shouldInclude := false;
        if statusFilter == "failing" {
          shouldInclude := reachable == "False";
        } else if statusFilter == "degraded" {
          shouldInclude := reachable != "True" && reachable != "False";
        }
        if !shouldInclude {
          continue;
        }
      }
      filtered := filtered + [check];
    }
    assert checks[..|checks|] == checks;
  }

  // ---------------------------------------------------------------- shown checks

  /** A failure message longer than 150 characters is cut to 150 and marked with "...". */
  function ShortMessage(m: string): (r: string)
    ensures |m| <= 150 ==> r == m
    ensures |m| > 150 ==> |r| == 153 && r[..150] == m[..150] && r[150..] == "..."
  {
    if |m| > 150 then m[..150] + "..." else m
  }

  datatype Failure = Failure(time: string, latency: string)

  /** "Recent Failures (shown of total)": the first three entries, of which the mappings are listed. */
  datatype RecentFailures = RecentFailures(shown: nat, total: nat, entries: seq<Failure>)

  /** The "time" and "latency" strings of one failure mapping, "" where absent or not a string. */
  function FailureOf(fields: Object): Failure {
    Failure(StringOr(fields, ["time"]), StringOr(fields, ["latency"]))
  }

  /** The listed failures: one entry per mapping among `fs`, in order; other items are skipped. */
  function FailureEntries(fs: seq<Value>): (r: seq<Failure>)
    ensures |r| == |Filter(fs, IsMapping)|
    ensures forall i :: 0 <= i < |r| ==> r[i] == FailureOf(Filter(fs, IsMapping)[i].fields)
  {
    if |fs| == 0 then []
    else
      var rest := FailureEntries(fs[..|fs| - 1]);
      var last := fs[|fs| - 1];
      if last.VMap? then rest + [FailureOf(last.fields)]
      else rest
  }

  /** The failures of a failing check: the first three of its "status.failures" list and the list's length. */
  function RecentFailuresOf(check: Object): (r: Option<RecentFailures>)
    ensures r.Some? <==> NestedSlice(check, ["status", "failures"]).Some? && |NestedSlice(check, ["status", "failures"]).value| > 0
    ensures r.Some? ==>
              var fs := NestedSlice(check, ["status", "failures"]).value;
              r.value.total == |fs| &&
              r.value.shown == (if |fs| > 3 then 3 else |fs|) &&
              r.value.entries == FailureEntries(fs[..r.value.shown]) &&
              |r.value.entries| <= r.value.shown <= 3
  {
    match NestedSlice(check, ["status", "failures"])
    case Some(fs) =>
      if |fs| > 0 then
        var count := if |fs| > 3 then 3 else |fs|;
        Some(RecentFailures(count, |fs|, FailureEntries(fs[..count])))
      else None
    case None => None
  }

  /** What the report shows of one check. */
  datatype CheckView = CheckView(
    name: string,
    sourcePod: string,
    targetEndpoint: string,
    reachable: string,
    message: Option<string>,
    failures: Option<RecentFailures>)

  function ViewOf(check: Object): (v: CheckView)
    ensures v.message.Some? <==> Failing(check) && ConditionMessage(check, "Reachable") != ""
    ensures v.message.Some? ==> v.message.value == ShortMessage(ConditionMessage(check, "Reachable"))
    ensures v.name == GetName(check)
    ensures v.sourcePod == StringOr(check, ["spec", "sourcePod"])
    ensures v.targetEndpoint == StringOr(check, ["spec", "targetEndpoint"])
    ensures v.reachable == Reachable(check)
    ensures v.failures == (if Failing(check) then RecentFailuresOf(check) else None)
  {
    var reachable := Reachable(check);
    var message := ConditionMessage(check, "Reachable");
    CheckView(GetName(check), StringOr(check, ["spec", "sourcePod"]), StringOr(check, ["spec", "targetEndpoint"]),
              reachable,
              if message != "" && reachable == "False" then Some(ShortMessage(message)) else None,
              if reachable == "False" then RecentFailuresOf(check) else None)
  }

  datatype ConnectivityReport = ConnectivityReport(total: nat, failing: nat, degraded: nat, shown: seq<CheckView>)

  /** The items of the check list, or the error the handler reports before listing anything. */
  function CheckItems(root: Node, containerDir: Path): (r: Result<seq<Value>, ConnectivityError>)
    ensures Lookup(root, ConnectivityFile(containerDir)).None? ==> r == Err(DataNotFound)
  {
    var p := ConnectivityFile(containerDir);
    if Lookup(root, p).None? then Err(DataNotFound)
    else match ReadFile(root, p)
      case Err(e) => Err(ReadFailed(e))
      case Ok(c) =>
        match Loader.DecodeMapping(c)
        case Err(_) => Err(ParseFailed)
        case Ok(obj) =>
          match NestedSlice(obj, ["items"])
          case None => Err(NoChecks)
          case Some(items) => Ok(items)
  }

  /**
   * `networkConnectivityCheck`: the map items of the check list sorted by
   * name, counted, filtered by status and shown.
   */
  method NetworkConnectivityCheck(root: Node, mg: Path, statusFilter: string)
    returns (r: Result<ConnectivityReport, ConnectivityError>)
    ensures var items := CheckItems(root, Loader.ContainerDir(root, mg));
            (items.Err? ==> r == Err(items.error)) &&
            (items.Ok? ==>
               r.Ok? &&
               exists sorted :: multiset(sorted) == multiset(CheckObjects(items.value)) && SortedBy(sorted, Nodes.NameLess) &&
                                r.value.total == |sorted| &&
                                r.value.failing == |Filter(sorted, Failing)| &&
                                r.value.degraded == |Filter(sorted, Degraded)| &&
                                |r.value.shown| == |Filter(sorted, KeepFilter(statusFilter))| &&
                                forall i :: 0 <= i < |r.value.shown| ==>
                                  r.value.shown[i] == ViewOf(Filter(sorted, KeepFilter(statusFilter))[i]))
  {
    var found := Loader.FindContainerDir(root, mg);
    var dir := if found.Ok? then found.value else mg;
    assert dir == Loader.ContainerDir(root, mg);
    var items := CheckItems(root, dir);
    if items.Err? {
      return Err(items.error);
    }
    var checks := CollectChecks(items.value);
    Nodes.NameOrderStrict();
    var sorted := SortBy(checks, Nodes.NameLess);
    var failing, degraded, filtered := CountAndFilter(sorted, statusFilter);
    var shown := seq(|filtered|, i requires 0 <= i < |filtered| => ViewOf(filtered[i]));
    return Ok(ConnectivityReport(|sorted|, failing, degraded, shown));
  }
}
