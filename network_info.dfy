/**
 * The network scale and OVN resource tools of the network toolset: the
 * non-empty lines of "cluster_scale", and the per-pod totals of the
 * "ovn_kubernetes_top_pods" table.
 */
module NetworkInfo {
  import opened Wrappers
  import opened Text
  import opened Seqs
  import opened FileTree
  import Int64
  import Loader
  import Logs
  import Nodes

  datatype NetworkError = DataNotFound | ReadFailed(cause: FsError)

  /** `os.Stat` reporting "not exist", then `os.ReadFile` / `os.Open`. */
  function ReadNetworkFile(root: Node, p: Path): (r: Result<string, NetworkError>)
    ensures Lookup(root, p).None? ==> r == Err(DataNotFound)
    ensures r.Ok? <==> ReadFile(root, p).Ok?
    ensures r.Ok? ==> r.value == ReadFile(root, p).value.text
  {
    if Lookup(root, p).None? then Err(DataNotFound)
    else match ReadFile(root, p)
      case Err(e) => Err(ReadFailed(e))
      case Ok(c) => Ok(c.text)
  }

  // ---------------------------------------------------------------- scale

  function ScaleFile(containerDir: Path): Path { containerDir + ["network_logs", "cluster_scale"] }

  /** Every line with its surrounding whitespace trimmed. */
  function Trimmed(lines: seq<string>): (r: seq<string>)
    ensures |r| == |lines|
  {
    seq(|lines|, i requires 0 <= i < |lines| => TrimSpace(lines[i]))
  }

  predicate NonEmpty(line: string) { line != "" }

  /** The trimmed lines that are not empty, in order. */
  function ScaleLines(lines: seq<string>): seq<string> {
    Filter(Trimmed(lines), NonEmpty)
  }

  /** A line is shown exactly when it is not empty and some input line trims to it. */
  lemma ScaleLinesMeaning(lines: seq<string>, line: string)
    ensures line in ScaleLines(lines) <==> line != "" && exists i :: 0 <= i < |lines| && TrimSpace(lines[i]) == line
  {
    var t := Trimmed(lines);
    if line in ScaleLines(lines) {
      var k :| 0 <= k < |ScaleLines(lines)| && ScaleLines(lines)[k] == line;
      var i :| 0 <= i < |t| && t[i] == line;
      assert TrimSpace(lines[i]) == line;
    }
    if line != "" && exists i :: 0 <= i < |lines| && TrimSpace(lines[i]) == line {
      var i :| 0 <= i < |lines| && TrimSpace(lines[i]) == line;
      assert t[i] == line && NonEmpty(t[i]);
    }
  }

  /** `networkScaleGet`: the non-empty trimmed lines of the scale file. */
  method NetworkScaleGet(root: Node, mg: Path) returns (r: Result<seq<string>, NetworkError>)
    ensures var read := ReadNetworkFile(root, ScaleFile(Loader.ContainerDir(root, mg)));
            (read.Err? ==> r == Err(read.error)) &&
            (read.Ok? ==> r == Ok(ScaleLines(Split(read.value, '\n'))))
  {
    var found := Loader.FindContainerDir(root, mg);
    var dir := if found.Ok? then found.value else mg;
    assert dir == Loader.ContainerDir(root, mg);
    var read := ReadNetworkFile(root, ScaleFile(dir));
    if read.Err? {
      return Err(read.error);
    }
    var shown := NonEmptyLines(Split(read.value, '\n'));
    return Ok(shown);
  }

  /** The line loop of `networkScaleGet`. */
  method NonEmptyLines(lines: seq<string>) returns (shown: seq<string>)
    ensures shown == ScaleLines(lines)
  {
    ghost var t := Trimmed(lines);
    shown := [];
    for i := 0 to |lines|
      invariant shown == Filter(t[..i], NonEmpty)
    {
      ScaleLinesStep(lines, i);
      var line := TrimSpace(lines[i]);
      if line != "" {
        shown := shown + [line];
      }
    }
    assert t[..|lines|] == t;
  }

  lemma ScaleLinesStep(lines: seq<string>, i: int)
    requires 0 <= i < |lines|
    ensures Filter(Trimmed(lines)[..i + 1], NonEmpty) ==
            Filter(Trimmed(lines)[..i], NonEmpty) + (if TrimSpace(lines[i]) != "" then [TrimSpace(lines[i])] else [])
  {
    var t := Trimmed(lines);
    FilterStep(t, i, NonEmpty);
    assert t[i] == TrimSpace(lines[i]);
  }

  // ---------------------------------------------------------------- OVN resources

  function TopPodsFile(containerDir: Path): Path { containerDir + ["network_logs", "ovn_kubernetes_top_pods"] }

  /**
   * One data line of the table: POD NAME CPU(cores) MEMORY(bytes), with the
   * amounts the handler adds for it (millicores and mebibytes).
   */
  datatype Sample = Sample(pod: string, container: string, cpu: string, memory: string, millicores: int, mebibytes: int)

  /** A line with at least four fields is a sample; further fields are ignored. */
  function SampleOf(line: string): (s: Option<Sample>)
    ensures s.Some? <==> |Fields(line)| >= 4
    ensures s.Some? ==> s.value.pod == Fields(line)[0] && s.value.container == Fields(line)[1] &&
                        s.value.cpu == Fields(line)[2] && s.value.memory == Fields(line)[3]
    ensures s.Some? ==> s.value.millicores == Quantity(s.value.cpu, "m") && s.value.mebibytes == Quantity(s.value.memory, "Mi")
  {
    var fs := Fields(line);
    if |fs| < 4 then None
    else Some(Sample(fs[0], fs[1], fs[2], fs[3], Quantity(fs[2], "m"), Quantity(fs[3], "Mi")))
  }

  /** A quantity with one trailing `unit` dropped, when the rest parses as a base-10 int64; else nothing is added. */
  function Quantity(s: string, unit: string): (v: int)
    ensures Int64.InRange(v)
    ensures ParseInt64(TrimSuffix(s, unit)).None? ==> v == 0
    ensures ParseInt64(TrimSuffix(s, unit)).Some? ==> v == ParseInt64(TrimSuffix(s, unit)).value
  {
    match ParseInt64(TrimSuffix(s, unit))
    case Some(n) => n
    case None => 0
  }

  /** A quantity written as an int64 in decimal followed by its unit reads back as that number. */
  lemma QuantityRoundTrip(n: int, unit: string)
    requires Int64.InRange(n)
    ensures Quantity(IntToString(n) + unit, unit) == n
  {
    var s := IntToString(n) + unit;
    assert HasSuffix(s, unit) by { assert s[|s| - |unit|..] == unit; }
    assert TrimSuffix(s, unit) == IntToString(n);
    ParseIntToString(n);
  }

  datatype Usage = Usage(cpu: string, memory: string)

  /** The `podResources` record of one pod. */
  datatype PodResources = PodResources(containers: map<string, Usage>, totalCPU: int, totalMemory: int)

  /** Add one sample to the totals: the container entry is (over)written, the quantities added with int64 wrap-around. */
  function Apply(pods: map<string, PodResources>, s: Sample): (pods': map<string, PodResources>)
    ensures pods'.Keys == pods.Keys + {s.pod}
  {
    var r := if s.pod in pods then pods[s.pod] else PodResources(map[], 0, 0);
    pods[s.pod := PodResources(r.containers[s.container := Usage(s.cpu, s.memory)],
                               Int64.Wrap(r.totalCPU + s.millicores),
                               Int64.Wrap(r.totalMemory + s.mebibytes))]
  }

  /** The samples of the lines that follow the header. */
  function Samples(lines: seq<string>): (ss: seq<Sample>)
    ensures |ss| <= |lines|
  {
    if |lines| == 0 then []
    else
      var rest := Samples(lines[..|lines| - 1]);
      match SampleOf(lines[|lines| - 1])
      case Some(s) => rest + [s]
      case None => rest
  }

  /** The totals after a run of samples. */
  function Totals(ss: seq<Sample>): (t: map<string, PodResources>)
    ensures forall pod :: pod in t ==> Int64.InRange(t[pod].totalCPU) && Int64.InRange(t[pod].totalMemory)
  {
    if |ss| == 0 then map[] else Apply(Totals(ss[..|ss| - 1]), ss[|ss| - 1])
  }

  function CpuSum(ss: seq<Sample>, pod: string): int {
    if |ss| == 0 then 0
    else CpuSum(ss[..|ss| - 1], pod) + (if ss[|ss| - 1].pod == pod then ss[|ss| - 1].millicores else 0)
  }

  function MemorySum(ss: seq<Sample>, pod: string): int {
    if |ss| == 0 then 0
    else MemorySum(ss[..|ss| - 1], pod) + (if ss[|ss| - 1].pod == pod then ss[|ss| - 1].mebibytes else 0)
  }

  /** The container names sampled for a pod. */
  function ContainerNames(ss: seq<Sample>, pod: string): set<string> {
    if |ss| == 0 then {}
    else ContainerNames(ss[..|ss| - 1], pod) + (if ss[|ss| - 1].pod == pod then {ss[|ss| - 1].container} else {})
  }

  lemma {:induction false} ContainerNamesMeaning(ss: seq<Sample>, pod: string, c: string)
    ensures c in ContainerNames(ss, pod) <==> exists i :: 0 <= i < |ss| && ss[i].pod == pod && ss[i].container == c
  {
    if |ss| > 0 {
      var init := ss[..|ss| - 1];
      ContainerNamesMeaning(init, pod, c);
      if exists i :: 0 <= i < |ss| && ss[i].pod == pod && ss[i].container == c {
        var i :| 0 <= i < |ss| && ss[i].pod == pod && ss[i].container == c;
        if i < |init| {
          assert init[i] == ss[i];
        }
      }
      if exists i :: 0 <= i < |init| && init[i].pod == pod && init[i].container == c {
        var i :| 0 <= i < |init| && init[i].pod == pod && init[i].container == c;
        assert ss[i] == init[i];
      }
    }
  }

  /** A pod has totals exactly when some sample names it. */
  lemma {:induction false} TotalsKeys(ss: seq<Sample>, pod: string)
    ensures pod in Totals(ss) <==> exists i :: 0 <= i < |ss| && ss[i].pod == pod
  {
    if |ss| > 0 {
      var init := ss[..|ss| - 1];
      TotalsKeys(init, pod);
      if exists i :: 0 <= i < |ss| && ss[i].pod == pod {
        var i :| 0 <= i < |ss| && ss[i].pod == pod;
        if i < |init| {
          assert init[i] == ss[i];
        }
      }
      if exists i :: 0 <= i < |init| && init[i].pod == pod {
        var i :| 0 <= i < |init| && init[i].pod == pod;
        assert ss[i] == init[i];
      }
    }
  }

  /** A pod has one container entry per distinct container name among its samples; a repeated one is overwritten. */
  lemma {:induction false} TotalsContainers(ss: seq<Sample>, pod: string)
    requires pod in Totals(ss)
    ensures Totals(ss)[pod].containers.Keys == ContainerNames(ss, pod)
  {
    var init, last := ss[..|ss| - 1], ss[|ss| - 1];
    ApplyEntry(Totals(init), last, pod);
    if pod in Totals(init) {
      TotalsContainers(init, pod);
    } else {
      Absent(init, pod);
    }
  }

  /** The CPU total of a pod is the int64 sum of its samples' millicores, each add wrapping on overflow. */
  lemma {:induction false} TotalsCpu(ss: seq<Sample>, pod: string)
    requires pod in Totals(ss)
    ensures Totals(ss)[pod].totalCPU == Int64.Wrap(CpuSum(ss, pod))
  {
    var init, last := ss[..|ss| - 1], ss[|ss| - 1];
    ApplyEntry(Totals(init), last, pod);
    if pod in Totals(init) {
      TotalsCpu(init, pod);
      if last.pod == pod {
        var q := last.millicores;
        assert CpuSum(ss, pod) == CpuSum(init, pod) + q;
        Int64.WrapStep(Totals(init)[pod].totalCPU, CpuSum(init, pod), q);
      } else {
        assert CpuSum(ss, pod) == CpuSum(init, pod);
      }
    } else {
      Absent(init, pod);
      assert last.pod == pod;
      assert CpuSum(ss, pod) == last.millicores;
    }
  }

  /** The memory total of a pod is the int64 sum of its samples' mebibytes, each add wrapping on overflow. */
  lemma {:induction false} TotalsMemory(ss: seq<Sample>, pod: string)
    requires pod in Totals(ss)
    ensures Totals(ss)[pod].totalMemory == Int64.Wrap(MemorySum(ss, pod))
  {
    var init, last := ss[..|ss| - 1], ss[|ss| - 1];
    ApplyEntry(Totals(init), last, pod);
    if pod in Totals(init) {
      TotalsMemory(init, pod);
      if last.pod == pod {
        var q := last.mebibytes;
        assert MemorySum(ss, pod) == MemorySum(init, pod) + q;
        Int64.WrapStep(Totals(init)[pod].totalMemory, MemorySum(init, pod), q);
      } else {
        assert MemorySum(ss, pod) == MemorySum(init, pod);
      }
    } else {
      Absent(init, pod);
      assert last.pod == pod;
      assert MemorySum(ss, pod) == last.mebibytes;
    }
  }

  /** The entry of a pod after one sample. */
  lemma ApplyEntry(pods: map<string, PodResources>, s: Sample, pod: string)
    requires pod in pods || s.pod == pod
    ensures var r := if pod in pods then pods[pod] else PodResources(map[], 0, 0);
            Apply(pods, s)[pod] ==
              if s.pod == pod then
                PodResources(r.containers[s.container := Usage(s.cpu, s.memory)],
                             Int64.Wrap(r.totalCPU + s.millicores),
                             Int64.Wrap(r.totalMemory + s.mebibytes))
              else r
  {
  }

  /** Before its first sample a pod has no containers and zero sums. */
  lemma {:induction false} Absent(ss: seq<Sample>, pod: string)
    requires pod !in Totals(ss)
    ensures ContainerNames(ss, pod) == {} && CpuSum(ss, pod) == 0 && MemorySum(ss, pod) == 0
  {
    if |ss| > 0 {
      Absent(ss[..|ss| - 1], pod);
    }
  }

  /** What the tool reports: the header line, the sample lines verbatim, and the per-pod totals. */
  datatype OvnReport = OvnReport(header: Option<string>, lines: seq<string>, pods: map<string, PodResources>)

  /** The lines after the header that hold a sample. */
  function SampleLines(lines: seq<string>): (r: seq<string>)
    ensures |r| == |Samples(lines)|
  {
    if |lines| == 0 then []
    else
      var rest := SampleLines(lines[..|lines| - 1]);
      if SampleOf(lines[|lines| - 1]).Some? then rest + [lines[|lines| - 1]] else rest
  }

  /** The k-th shown line is the one the k-th sample was read from. */
  lemma {:induction false} SampleLinesAgree(lines: seq<string>, k: int)
    requires 0 <= k < |SampleLines(lines)|
    ensures SampleOf(SampleLines(lines)[k]) == Some(Samples(lines)[k])
  {
    var init := lines[..|lines| - 1];
    if k < |SampleLines(init)| {
      SampleLinesAgree(init, k);
    }
  }

  /** The report of the scanned lines: the first one is the header, whatever it holds. */
  function ReportOf(tokens: seq<string>): OvnReport {
    if |tokens| == 0 then OvnReport(None, [], map[])
    else OvnReport(Some(tokens[0]), SampleLines(tokens[1..]), Totals(Samples(tokens[1..])))
  }

  lemma TopPodsStep(tokens: seq<string>, i: int)
    requires 1 <= i < |tokens|
    ensures SampleOf(tokens[i]).None? ==>
              Samples(tokens[1..i + 1]) == Samples(tokens[1..i]) && SampleLines(tokens[1..i + 1]) == SampleLines(tokens[1..i])
    ensures SampleOf(tokens[i]).Some? ==>
              Samples(tokens[1..i + 1]) == Samples(tokens[1..i]) + [SampleOf(tokens[i]).value] &&
              SampleLines(tokens[1..i + 1]) == SampleLines(tokens[1..i]) + [tokens[i]]
  {
    assert tokens[1..i + 1][..i - 1] == tokens[1..i];
  }

  lemma TotalsSnoc(ss: seq<Sample>, s: Sample)
    ensures Totals(ss + [s]) == Apply(Totals(ss), s)
  {
    assert (ss + [s])[..|ss|] == ss;
  }

  /** The scanner loop of `networkOVNResources`. */
  method ScanTopPods(tokens: seq<string>) returns (rep: OvnReport)
    ensures rep == ReportOf(tokens)
  {
    var pods: map<string, PodResources> := map[];
    var header: Option<string> := None;
    var shown: seq<string> := [];
    var headerRead := false;
    for i := 0 to |tokens|
      invariant headerRead <==> i > 0
      invariant header == if i > 0 then Some(tokens[0]) else None
      invariant shown == if i > 0 then SampleLines(tokens[1..i]) else []
      invariant pods == if i > 0 then Totals(Samples(tokens[1..i])) else map[]
    {
      var line := tokens[i];
      if !headerRead {
        header := Some(line);
        headerRead := true;
        assert tokens[1..1] == [];
        continue;
      }
      TopPodsStep(tokens, i);
      var fields := Fields(line);
      if |fields| < 4 {
        continue;
      }
      ghost var sample := SampleOf(line).value;
      TotalsSnoc(Samples(tokens[1..i]), sample);
      pods := AddSample(pods, fields);
      shown := shown + [line];
    }
    rep := OvnReport(header, shown, pods);
    if |tokens| > 0 {
      assert tokens[1..|tokens|] == tokens[1..];
    }
  }

  /** `strconv.ParseInt(strings.TrimSuffix(s, unit), 10, 64)`, added to `total` when it succeeds. */
  method AddQuantity(total: int, s: string, unit: string) returns (total': int)
    requires Int64.InRange(total)
    ensures total' == Int64.Wrap(total + Quantity(s, unit))
  {
    total' := total;
    var v := ParseInt64(TrimSuffix(s, unit));
    if v.Some? {
      total' := Int64.Wrap(total' + v.value);
    }
  }

  /** The body of the scanner loop for a line of at least four fields. */
  method AddSample(pods: map<string, PodResources>, fields: seq<string>) returns (pods': map<string, PodResources>)
    requires |fields| >= 4
    requires forall p :: p in pods ==> Int64.InRange(pods[p].totalCPU) && Int64.InRange(pods[p].totalMemory)
    ensures pods' == Apply(pods, Sample(fields[0], fields[1], fields[2], fields[3],
                                        Quantity(fields[2], "m"), Quantity(fields[3], "Mi")))
  {
    var pod, container, cpu, memory := fields[0], fields[1], fields[2], fields[3];
    var r := if pod in pods then pods[pod] else PodResources(map[], 0, 0);
    assert Int64.InRange(r.totalCPU) && Int64.InRange(r.totalMemory);
    var totalCPU := AddQuantity(r.totalCPU, cpu, "m");
    var totalMemory := AddQuantity(r.totalMemory, memory, "Mi");
    pods' := pods[pod := PodResources(r.containers[container := Usage(cpu, memory)], totalCPU, totalMemory)];
    ApplyIs(pods, Sample(pod, container, cpu, memory, Quantity(cpu, "m"), Quantity(memory, "Mi")), r, totalCPU, totalMemory);
  }

  lemma ApplyIs(pods: map<string, PodResources>, s: Sample, r: PodResources, totalCPU: int, totalMemory: int)
    requires r == if s.pod in pods then pods[s.pod] else PodResources(map[], 0, 0)
    requires totalCPU == Int64.Wrap(r.totalCPU + s.millicores)
    requires totalMemory == Int64.Wrap(r.totalMemory + s.mebibytes)
    ensures Apply(pods, s) == pods[s.pod := PodResources(r.containers[s.container := Usage(s.cpu, s.memory)], totalCPU, totalMemory)]
  {
  }

  /** `truncatePodName`: the same cut as the cluster tools' `truncate`. */
  function TruncatePodName(name: string, maxLen: int): (r: string)
    requires |name| <= maxLen || maxLen >= 3
    ensures r == Nodes.Truncate(name, maxLen)
    ensures |r| <= maxLen || r == name
  {
    if |name| <= maxLen then name else name[..maxLen - 3] + "..."
  }

  /** One line of the "Summary by Pod" table. */
  datatype SummaryRow = SummaryRow(pod: string, containers: nat, totalCPU: int, totalMemory: int)

  function SummaryRowOf(pod: string, r: PodResources): (row: SummaryRow)
    ensures row.containers == |r.containers|
  {
    SummaryRow(TruncatePodName(pod, 45), |r.containers|, r.totalCPU, r.totalMemory)
  }

  /** `networkOVNResources`: scan the table file; the summary is drawn from `pods` in map order. */
  method NetworkOVNResources(root: Node, mg: Path) returns (r: Result<OvnReport, NetworkError>)
    ensures var read := ReadNetworkFile(root, TopPodsFile(Loader.ContainerDir(root, mg)));
            (read.Err? ==> r == Err(read.error)) &&
            (read.Ok? ==> r == Ok(ReportOf(Logs.ScanLines(read.value))))
  {
    var found := Loader.FindContainerDir(root, mg);
    var dir := if found.Ok? then found.value else mg;
    assert dir == Loader.ContainerDir(root, mg);
    var read := ReadNetworkFile(root, TopPodsFile(dir));
    if read.Err? {
      return Err(read.error);
    }
    var rep := ScanTopPods(Logs.ScanLines(read.value));
    return Ok(rep);
  }
}
