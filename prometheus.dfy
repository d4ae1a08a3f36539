/**
 * The three Prometheus reports: server status, scrape targets and TSDB
 * details, one section per selected replica. Each replica's JSON files are
 * read and decoded; a replica whose main file cannot be read gets a warning
 * line and the loop goes on with the next one. The text layout is not
 * modelled; each section is the data the layout prints.
 */
module Prometheus {
  import opened Wrappers
  import opened Text
  import opened Seqs
  import opened FileTree
  import opened MonitoringHelpers
  import Loader
  import Int64

  // ---------------------------------------------------------------- documents

  /** An entry of the TSDB cardinality tables: a metric or label name and its count or byte size. */
  datatype NamedValue = NamedValue(name: string, value: int)

  datatype HeadStats = HeadStats(numSeries: int, numLabelPairs: int, chunkCount: int)

  /** The `data` of status/tsdb.json. */
  datatype TSDBStatus = TSDBStatus(
    seriesCountByMetricName: seq<NamedValue>,
    labelValueCountByLabelName: seq<NamedValue>,
    memoryInBytesByLabelName: seq<NamedValue>,
    headStats: HeadStats)

  /** The `data` of status/runtimeinfo.json. */
  datatype RuntimeInfo = RuntimeInfo(
    startTime: string,
    reloadConfigSuccess: bool,
    lastConfigTime: string,
    corruptionCount: int,
    goroutineCount: int,
    gomaxprocs: int,
    gomemlimit: int,
    storageRetention: string)

  /** One entry of `data.activeTargets` in active-targets.json. */
  datatype ActiveTarget = ActiveTarget(
    labels: map<string, string>,
    scrapeURL: string,
    lastError: string,
    lastScrape: string,
    health: string)

  /** The JSON decoders of the three documents; decoding itself is not modelled. */
  datatype Decoders = Decoders(
    tsdb: string -> Option<TSDBStatus>,
    runtime: string -> Option<RuntimeInfo>,
    targets: string -> Option<seq<ActiveTarget>>)

  /** The container directory the reports read from: the found one, or the archive path itself. */
  function ReportRoot(root: Node, mg: Path): Path { Loader.ContainerDir(root, mg) }

  function TSDBFile(containerDir: Path, replica: int): Path {
    PrometheusReplicaPath(containerDir, replica) + ["status", "tsdb.json"]
  }

  function RuntimeFile(containerDir: Path, replica: int): Path {
    PrometheusReplicaPath(containerDir, replica) + ["status", "runtimeinfo.json"]
  }

  function TargetsFile(containerDir: Path, replica: int): Path {
    PrometheusReplicaPath(containerDir, replica) + ["active-targets.json"]
  }

  /** The three documents of a replica sit in distinct files of its own directory. */
  lemma ReplicaFilesDistinct(containerDir: Path, replica: int)
    ensures PrometheusReplicaPath(containerDir, replica) <= TSDBFile(containerDir, replica)
    ensures PrometheusReplicaPath(containerDir, replica) <= RuntimeFile(containerDir, replica)
    ensures PrometheusReplicaPath(containerDir, replica) <= TargetsFile(containerDir, replica)
    ensures TSDBFile(containerDir, replica) != RuntimeFile(containerDir, replica)
    ensures TSDBFile(containerDir, replica) != TargetsFile(containerDir, replica)
  {
    var n := |PrometheusReplicaPath(containerDir, replica)|;
    assert TSDBFile(containerDir, replica)[n + 1] == "tsdb.json";
    assert RuntimeFile(containerDir, replica)[n + 1] == "runtimeinfo.json";
    assert |TargetsFile(containerDir, replica)| == n + 1;
  }

  // ---------------------------------------------------------------- status report

  function Values(es: seq<NamedValue>): (vs: seq<int>)
    ensures |vs| == |es|
    ensures forall i :: 0 <= i < |es| ==> vs[i] == es[i].value
  {
    if |es| == 0 then [] else Values(es[..|es| - 1]) + [es[|es| - 1].value]
  }

  /**
   * What a status section shows for a replica whose TSDB status was read:
   * the runtime block when that file was read too (with the corruption
   * warning only when the count is positive), the head statistics, the number
   * of metrics and of labels when non-zero, and the int64 sum of the label
   * memory when positive.
   */
  datatype StatusSection =
    | StatusFailed(replica: int, error: JSONError)
    | StatusShown(
        replica: int,
        runtime: Option<RuntimeInfo>,
        corruptionWarning: bool,
        head: HeadStats,
        uniqueMetrics: Option<nat>,
        uniqueLabels: Option<nat>,
        labelMemory: Option<int>)

  /** A count line that appears only when the count is non-zero. */
  function CountLine(n: nat): (r: Option<nat>)
    ensures r.Some? <==> n > 0
    ensures r.Some? ==> r.value == n
  {
    if n > 0 then Some(n) else None
  }

  /**
   * `s` is what the status report shows for `replica`: the TSDB error, or the
   * runtime block iff that file was read, the corruption warning iff its count
   * is positive, the head statistics, the metric and label counts when non-zero,
   * and the int64 sum of the label memory iff that sum is positive.
   */
  predicate SectionOf(replica: int, tsdb: Result<TSDBStatus, JSONError>, runtime: Result<RuntimeInfo, JSONError>, s: StatusSection) {
    s.replica == replica &&
    (tsdb.Err? ==> s == StatusFailed(replica, tsdb.error)) &&
    (tsdb.Ok? ==>
       s.StatusShown? &&
       (s.runtime.Some? <==> runtime.Ok?) &&
       (runtime.Ok? ==> s.runtime.value == runtime.value) &&
       (s.corruptionWarning <==> runtime.Ok? && runtime.value.corruptionCount > 0) &&
       s.head == tsdb.value.headStats &&
       s.uniqueMetrics == CountLine(|tsdb.value.seriesCountByMetricName|) &&
       s.uniqueLabels == CountLine(|tsdb.value.labelValueCountByLabelName|) &&
       var total := Int64.Wrap(Int64.Sum(Values(tsdb.value.memoryInBytesByLabelName)));
       (s.labelMemory.Some? <==> total > 0) &&
       (s.labelMemory.Some? ==> s.labelMemory.value == total))
  }

  /** The section of one replica in `monitoring_prometheus_status`. */
  method StatusSectionFor(replica: int, tsdb: Result<TSDBStatus, JSONError>, runtime: Result<RuntimeInfo, JSONError>)
    returns (s: StatusSection)
    ensures SectionOf(replica, tsdb, runtime, s)
  {
    if tsdb.Err? {
      return StatusFailed(replica, tsdb.error);
    }
    var t := tsdb.value;
    var totalMem := Int64.Accumulate(Values(t.memoryInBytesByLabelName));
    s := StatusShown(
      replica,
      if runtime.Ok? then Some(runtime.value) else None,
      runtime.Ok? && runtime.value.corruptionCount > 0,
      t.headStats,
      CountLine(|t.seriesCountByMetricName|),
      CountLine(|t.labelValueCountByLabelName|),
      if totalMem > 0 then Some(totalMem) else None);
  }

  /** `prometheusStatus`: one section per selected replica, in replica order. */
  method PrometheusStatus(root: Node, mg: Path, replica: string, dec: Decoders) returns (sections: seq<StatusSection>)
    ensures |sections| == |ReplicaNumbers(replica)|
    ensures forall i :: 0 <= i < |sections| ==>
              var n := ReplicaNumbers(replica)[i];
              var dir := ReportRoot(root, mg);
              SectionOf(n, ReadJSON(root, TSDBFile(dir, n), dec.tsdb), ReadJSON(root, RuntimeFile(dir, n), dec.runtime), sections[i])
  {
    var found := Loader.FindContainerDir(root, mg);
    var dir := if found.Ok? then found.value else mg;
    assert dir == ReportRoot(root, mg);
    var nums := ReplicaNumbers(replica);
    sections := [];
    for i := 0 to |nums|
      invariant |sections| == i
      invariant forall j :: 0 <= j < i ==>
                  SectionOf(nums[j], ReadJSON(root, TSDBFile(dir, nums[j]), dec.tsdb),
                            ReadJSON(root, RuntimeFile(dir, nums[j]), dec.runtime), sections[j])
    {
      var tsdb := ReadJSON(root, TSDBFile(dir, nums[i]), dec.tsdb);
      var runtime := ReadJSON(root, RuntimeFile(dir, nums[i]), dec.runtime);
      var s := StatusSectionFor(nums[i], tsdb, runtime);
      sections := sections + [s];
    }
  }

  // ---------------------------------------------------------------- targets report

  /** The arguments of `monitoring_prometheus_targets`, after their defaults. */
  datatype TargetArgs = TargetArgs(replica: string, health: string, job: string, namespace: string, limit: int)

  /**
   * A target is listed when the health filter is "all" or equals its health,
   * and the job and namespace filters each occur in its labels ignoring case.
   */
  predicate Survives(t: ActiveTarget, args: TargetArgs) {
    (args.health == "all" || t.health == args.health) &&
    ContainsFold(Job(t.labels), args.job) &&
    ContainsFold(LabelNamespace(t.labels), args.namespace)
  }

  function Survivor(args: TargetArgs): ActiveTarget -> bool {
    t => Survives(t, args)
  }

  /** The number of targets with health `h`. */
  function HealthCount(ts: seq<ActiveTarget>, h: string): (n: nat)
    ensures n <= |ts|
  {
    if |ts| == 0 then 0
    else HealthCount(ts[..|ts| - 1], h) + (if ts[|ts| - 1].health == h then 1 else 0)
  }

  /** A health is counted exactly when some target has it. */
  lemma {:induction false} HealthCountPositive(ts: seq<ActiveTarget>, h: string)
    ensures HealthCount(ts, h) > 0 <==> exists i :: 0 <= i < |ts| && ts[i].health == h
    decreases |ts|
  {
    if |ts| > 0 {
      var init := ts[..|ts| - 1];
      assert forall i :: 0 <= i < |init| ==> init[i] == ts[i];
      HealthCountPositive(init, h);
    }
  }

  lemma HealthCountStep(ts: seq<ActiveTarget>, i: int)
    requires 0 <= i < |ts|
    ensures forall h :: HealthCount(ts[..i + 1], h) == HealthCount(ts[..i], h) + (if ts[i].health == h then 1 else 0)
  {
    assert ts[..i + 1][..i] == ts[..i];
  }

  /** The health summary lists up, down and unknown: together at most every target, all of them when no other health occurs. */
  lemma {:induction false} HealthSummaryBound(ts: seq<ActiveTarget>)
    ensures HealthCount(ts, "up") + HealthCount(ts, "down") + HealthCount(ts, "unknown") <= |ts|
    ensures (forall i :: 0 <= i < |ts| ==> ts[i].health in {"up", "down", "unknown"}) ==>
              HealthCount(ts, "up") + HealthCount(ts, "down") + HealthCount(ts, "unknown") == |ts|
    decreases |ts|
  {
    if |ts| > 0 {
      var init := ts[..|ts| - 1];
      assert forall i :: 0 <= i < |init| ==> init[i] == ts[i];
      HealthSummaryBound(init);
    }
  }

  /** Rank of a health in the listing: down, then unknown, then the rest. */
  function HealthRank(h: string): nat {
    if h == "down" then 0 else if h == "unknown" then 1 else 2
  }

  /** The `sort.Slice` comparator of the targets listing, branch by branch. */
  predicate TargetLess(a: ActiveTarget, b: ActiveTarget)
    ensures a.health == "down" && b.health != "down" ==> TargetLess(a, b)
    ensures a.health == "unknown" && b.health != "down" && b.health != "unknown" ==> TargetLess(a, b)
    ensures a.health == b.health ==> (TargetLess(a, b) <==> LexLess(Job(a.labels), Job(b.labels)))
  {
    if a.health != b.health && a.health == "down" then true
    else if a.health != b.health && b.health == "down" then false
    else if a.health != b.health && a.health == "unknown" then true
    else if a.health != b.health && b.health == "unknown" then false
    else LexLess(Job(a.labels), Job(b.labels))
  }

  /** The comparator is the lexicographic order on (health rank, job). */
  lemma TargetLessByRank(a: ActiveTarget, b: ActiveTarget)
    ensures TargetLess(a, b) <==>
              HealthRank(a.health) < HealthRank(b.health) ||
              (HealthRank(a.health) == HealthRank(b.health) && LexLess(Job(a.labels), Job(b.labels)))
  {
  }

  lemma TargetOrderStrict()
    ensures StrictWeakOrder(TargetLess)
  {
    forall x: ActiveTarget, y: ActiveTarget, z: ActiveTarget
      | !TargetLess(x, y) && !TargetLess(y, x) && !TargetLess(y, z) && !TargetLess(z, y)
      ensures !TargetLess(x, z) && !TargetLess(z, x)
    {
      TargetLessByRank(x, y);
      TargetLessByRank(y, x);
      TargetLessByRank(y, z);
      TargetLessByRank(z, y);
      TargetLessByRank(x, z);
      TargetLessByRank(z, x);
      LexIncomparable(Job(x.labels), Job(y.labels));
      LexIncomparable(Job(y.labels), Job(z.labels));
    }
    forall x: ActiveTarget ensures !TargetLess(x, x) {
      LexLessIrreflexive(Job(x.labels));
    }
    forall x: ActiveTarget, y: ActiveTarget, z: ActiveTarget | TargetLess(x, y) && TargetLess(y, z)
      ensures TargetLess(x, z)
    {
      TargetLessByRank(x, y);
      TargetLessByRank(y, z);
      TargetLessByRank(x, z);
      if HealthRank(x.health) == HealthRank(y.health) == HealthRank(z.health) {
        LexLessTransitive(Job(x.labels), Job(y.labels), Job(z.labels));
      }
    }
  }

  /** The "Filtered Results" line: the count before the limit, and whether only the first `limit` are shown. */
  datatype FilterNote = FilterNote(displayCount: nat, showingFirst: bool)

  datatype TargetsSection =
    | TargetsFailed(replica: int, error: JSONError)
    | TargetsShown(
        replica: int,
        total: nat,
        healthCounts: map<string, nat>,
        note: Option<FilterNote>,
        targets: seq<ActiveTarget>)

  predicate FiltersActive(args: TargetArgs) {
    args.health != "all" || args.job != "" || args.namespace != ""
  }

  /**
   * What the targets section of a replica with targets `ts` must hold: the
   * total and the health tally are over all targets; the listing is the
   * first `limit` of some sorted arrangement of the surviving targets; the
   * note, shown only when a filter is set, counts the survivors.
   */
  ghost predicate TargetsSectionOf(s: TargetsSection, replica: int, ts: seq<ActiveTarget>, args: TargetArgs) {
    var survivors := Filter(ts, Survivor(args));
    s.TargetsShown? && s.replica == replica && s.total == |ts| &&
    (forall h :: h in s.healthCounts <==> HealthCount(ts, h) > 0) &&
    (forall h :: h in s.healthCounts ==> s.healthCounts[h] == HealthCount(ts, h)) &&
    (s.note.Some? <==> FiltersActive(args)) &&
    (s.note.Some? ==> s.note.value == FilterNote(|survivors|, args.limit > 0 && |survivors| > args.limit)) &&
    (exists sorted :: multiset(sorted) == multiset(survivors) && SortedBy(sorted, TargetLess) &&
                      s.targets == Limit(sorted, args.limit))
  }

  /** The loop of `prometheusTargets` over one replica's targets: every target is tallied, the survivors kept in order. */
  method TallyAndFilter(ts: seq<ActiveTarget>, args: TargetArgs)
    returns (filtered: seq<ActiveTarget>, healthCounts: map<string, nat>)
    ensures filtered == Filter(ts, Survivor(args))
    ensures forall h :: h in healthCounts <==> HealthCount(ts, h) > 0
    ensures forall h :: h in healthCounts ==> healthCounts[h] == HealthCount(ts, h)
  {
    filtered := [];
    healthCounts := map[];
    for i := 0 to |ts|
      invariant filtered == Filter(ts[..i], Survivor(args))
      invariant forall h :: h in healthCounts <==> HealthCount(ts[..i], h) > 0
      invariant forall h :: h in healthCounts ==> healthCounts[h] == HealthCount(ts[..i], h)
    {
      var t := ts[i];
      HealthCountStep(ts, i);
      FilterStep(ts, i, Survivor(args));
      var n := if t.health in healthCounts then healthCounts[t.health] else 0;
      healthCounts := healthCounts[t.health := n + 1];
      if Survives(t, args) {
        filtered := filtered + [t];
      }
    }
    assert ts[..|ts|] == ts;
  }

  /** One replica's targets section: tally and filter, then sort, count and limit. */
  method TargetsSectionFor(replica: int, ts: seq<ActiveTarget>, args: TargetArgs) returns (s: TargetsSection)
    ensures TargetsSectionOf(s, replica, ts, args)
  {
    var filtered, healthCounts := TallyAndFilter(ts, args);
    TargetOrderStrict();
    var sorted := SortBy(filtered, TargetLess);
    var displayCount := |sorted|;
    assert displayCount == |filtered| by {
      assert |multiset(sorted)| == |multiset(filtered)|;
    }
    var shown := sorted;
    if args.limit > 0 && |sorted| > args.limit {
      shown := sorted[..args.limit];
    }
    assert shown == Limit(sorted, args.limit);
    var note := None;
    if FiltersActive(args) {
      note := Some(FilterNote(displayCount, args.limit > 0 && displayCount > args.limit));
    }
    s := TargetsShown(replica, |ts|, healthCounts, note, shown);
  }

  /** A listed target passed the filters; the listing holds at most `limit` targets when `limit > 0`. */
  lemma ListedTargetsSurvive(s: TargetsSection, replica: int, ts: seq<ActiveTarget>, args: TargetArgs)
    requires TargetsSectionOf(s, replica, ts, args)
    ensures forall t :: t in s.targets ==> t in ts && Survives(t, args)
    ensures args.limit > 0 ==> |s.targets| <= args.limit
    ensures |s.targets| <= |Filter(ts, Survivor(args))|
  {
    var survivors := Filter(ts, Survivor(args));
    var sorted :| multiset(sorted) == multiset(survivors) && SortedBy(sorted, TargetLess) &&
                  s.targets == Limit(sorted, args.limit);
    assert |sorted| == |survivors| by {
      assert |multiset(sorted)| == |multiset(survivors)|;
    }
    forall t | t in s.targets ensures t in ts && Survives(t, args) {
      LimitedPermutationMember(sorted, survivors, args.limit, t);
      var k :| 0 <= k < |survivors| && survivors[k] == t;
      assert Survivor(args)(survivors[k]);
    }
  }

  /** `prometheusTargets`: one section per selected replica; a replica whose targets file fails is reported and skipped. */
  method PrometheusTargets(root: Node, mg: Path, args: TargetArgs, decode: string -> Option<seq<ActiveTarget>>)
    returns (sections: seq<TargetsSection>)
    ensures |sections| == |ReplicaNumbers(args.replica)|
    ensures forall i :: 0 <= i < |sections| ==>
              var n := ReplicaNumbers(args.replica)[i];
              var read := ReadJSON(root, TargetsFile(ReportRoot(root, mg), n), decode);
              (read.Err? ==> sections[i] == TargetsFailed(n, read.error)) &&
              (read.Ok? ==> TargetsSectionOf(sections[i], n, read.value, args))
  {
    var found := Loader.FindContainerDir(root, mg);
    var dir := if found.Ok? then found.value else mg;
    assert dir == ReportRoot(root, mg);
    var nums := ReplicaNumbers(args.replica);
    sections := [];
    for i := 0 to |nums|
      invariant |sections| == i
      invariant forall j :: 0 <= j < i ==>
                  var read := ReadJSON(root, TargetsFile(dir, nums[j]), decode);
                  (read.Err? ==> sections[j] == TargetsFailed(nums[j], read.error)) &&
                  (read.Ok? ==> TargetsSectionOf(sections[j], nums[j], read.value, args))
    {
      var read := ReadJSON(root, TargetsFile(dir, nums[i]), decode);
      var s;
      if read.Err? {
        s := TargetsFailed(nums[i], read.error);
      } else {
        s := TargetsSectionFor(nums[i], read.value, args);
      }
      sections := sections + [s];
    }
  }

  // ---------------------------------------------------------------- TSDB report

  /** A "Top N" table: the `displayTop` it announces and the rows it lists. */
  datatype TopTable = TopTable(displayTop: int, rows: seq<NamedValue>)

  /**
   * A TSDB table: absent when there are no entries; otherwise it announces
   * min(top, entries) and lists the first that many entries in file order
   * (none when `top <= 0`).
   */
  function TopTableOf(entries: seq<NamedValue>, top: int): (t: Option<TopTable>)
    ensures t.None? <==> |entries| == 0
    ensures t.Some? ==> t.value.displayTop == (if top > |entries| then |entries| else top)
    ensures t.Some? ==> t.value.rows <= entries
    ensures t.Some? ==> |t.value.rows| == (if top <= 0 then 0 else if top > |entries| then |entries| else top)
  {
    if |entries| == 0 then None
    else
      var displayTop := if top > |entries| then |entries| else top;
      Some(TopTable(displayTop, if displayTop <= 0 then [] else entries[..displayTop]))
  }

  /** For a positive `top` a table lists what `Limit` keeps. */
  lemma TopTableIsLimit(entries: seq<NamedValue>, top: int)
    requires |entries| > 0 && top > 0
    ensures TopTableOf(entries, top).value.rows == Limit(entries, top)
  {
  }

  /** The `for i := 0; i < displayTop; i++` loop of one table. */
  method BuildTopTable(entries: seq<NamedValue>, top: int) returns (t: Option<TopTable>)
    ensures t == TopTableOf(entries, top)
  {
    if |entries| == 0 {
      return None;
    }
    var displayTop := top;
    if displayTop > |entries| {
      displayTop := |entries|;
    }
    var rows := [];
    var i := 0;
    while i < displayTop
      invariant 0 <= i <= |entries|
      invariant displayTop > 0 ==> i <= displayTop
      invariant displayTop <= 0 ==> i == 0
      invariant rows == entries[..i]
    {
      rows := rows + [entries[i]];
      i := i + 1;
    }
    return Some(TopTable(displayTop, rows));
  }

  datatype TSDBSection =
    | TSDBFailed(replica: int, error: JSONError)
    | TSDBShown(
        replica: int,
        head: HeadStats,
        topMetrics: Option<TopTable>,
        topLabels: Option<TopTable>,
        topMemory: Option<TopTable>)

  /** `prometheusTSDB`: one section per selected replica, three tables per readable replica. */
  method PrometheusTSDB(root: Node, mg: Path, replica: string, top: int, decode: string -> Option<TSDBStatus>)
    returns (sections: seq<TSDBSection>)
    ensures |sections| == |ReplicaNumbers(replica)|
    ensures forall i :: 0 <= i < |sections| ==>
              var n := ReplicaNumbers(replica)[i];
              var read := ReadJSON(root, TSDBFile(ReportRoot(root, mg), n), decode);
              (read.Err? ==> sections[i] == TSDBFailed(n, read.error)) &&
              (read.Ok? ==>
                 sections[i] == TSDBShown(n, read.value.headStats,
                                          TopTableOf(read.value.seriesCountByMetricName, top),
                                          TopTableOf(read.value.labelValueCountByLabelName, top),
                                          TopTableOf(read.value.memoryInBytesByLabelName, top)))
  {
    var found := Loader.FindContainerDir(root, mg);
    var dir := if found.Ok? then found.value else mg;
    assert dir == ReportRoot(root, mg);
    var nums := ReplicaNumbers(replica);
    sections := [];
    for i := 0 to |nums|
      invariant |sections| == i
      invariant forall j :: 0 <= j < i ==>
                  var read := ReadJSON(root, TSDBFile(dir, nums[j]), decode);
                  (read.Err? ==> sections[j] == TSDBFailed(nums[j], read.error)) &&
                  (read.Ok? ==>
                     sections[j] == TSDBShown(nums[j], read.value.headStats,
                                              TopTableOf(read.value.seriesCountByMetricName, top),
                                              TopTableOf(read.value.labelValueCountByLabelName, top),
                                              TopTableOf(read.value.memoryInBytesByLabelName, top)))
    {
      var read := ReadJSON(root, TSDBFile(dir, nums[i]), decode);
      var s;
      if read.Err? {
        s := TSDBFailed(nums[i], read.error);
      } else {
        var t := read.value;
        var metrics := BuildTopTable(t.seriesCountByMetricName, top);
        var labels := BuildTopTable(t.labelValueCountByLabelName, top);
        var memory := BuildTopTable(t.memoryInBytesByLabelName, top);
        s := TSDBShown(nums[i], t.headStats, metrics, labels, memory);
      }
      sections := sections + [s];
    }
  }
}
