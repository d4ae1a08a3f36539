/**
 * The configuration tools of the monitoring toolset: the summary of the
 * Prometheus configuration captured in the must-gather, and the list of
 * ServiceMonitor resources grouped by namespace.
 */
module MonitoringConfig {
  import opened Wrappers
  import opened Text
  import opened Seqs
  import opened FileTree
  import opened Unstructured
  import opened MonitoringHelpers
  import opened Index
  import opened GoMaps
  import opened Provider
  import Loader

  // ---------------------------------------------------------------- configuration files

  /** "status/config.json" in the shared Prometheus directory. */
  function ConfigFile(containerDir: Path): Path {
    PrometheusCommonPath(containerDir) + ["status", "config.json"]
  }

  /** "status/flags.json" in the shared Prometheus directory. */
  function FlagsFile(containerDir: Path): Path {
    PrometheusCommonPath(containerDir) + ["status", "flags.json"]
  }

  /**
   * The decoders the summary uses: the "yaml" field of the config response,
   * the flags response, and the YAML parser of the config text. The flags
   * decoder gives the entries `json.Unmarshal` stores into a
   * `map[string]string`, whether or not it also reports an error: a value of
   * the wrong type is skipped while the other entries are still stored, and
   * a document that is not valid JSON stores nothing.
   */
  datatype ConfigDecoders = ConfigDecoders(
    config: string -> Option<string>,
    flags: string -> map<string, string>,
    yaml: string -> Option<Value>)

  datatype ConfigError = ConfigReadFailed(cause: JSONError) | ConfigParseFailed

  /**
   * `yaml.Unmarshal` into `map[string]interface{}`: a null document is the
   * nil (empty) map, any other non-mapping document is an error.
   */
  function ParseConfig(text: string, yaml: string -> Option<Value>): (r: Option<map<string, Value>>)
    ensures r.Some? <==> yaml(text).Some? && (yaml(text).value.VMap? || yaml(text).value.VNull?)
    ensures r.Some? && yaml(text).value.VMap? ==> r.value == yaml(text).value.fields
    ensures r.Some? && yaml(text).value.VNull? ==> r.value == map[]
  {
    match yaml(text)
    case Some(VMap(m)) => Some(m)
    case Some(VNull) => Some(map[])
    case _ => None
  }

  /**
   * The flags `readJSON` leaves in the map: none when "flags.json" cannot be
   * read, otherwise whatever the decoder stored. The error is ignored, so a
   * partly decoded map is still used.
   */
  function Flags(root: Node, containerDir: Path, decode: string -> map<string, string>): (r: map<string, string>)
    ensures ReadFile(root, FlagsFile(containerDir)).Err? ==> r == map[]
    ensures ReadFile(root, FlagsFile(containerDir)).Ok? ==> r == decode(ReadFile(root, FlagsFile(containerDir)).value.text)
  {
    match ReadFile(root, FlagsFile(containerDir))
    case Err(_) => map[]
    case Ok(c) => decode(c.text)
  }

  /** A type assertion `m[k].(string)`. */
  function FieldString(m: map<string, Value>, k: string): (r: Option<string>)
    ensures r.Some? <==> k in m && m[k].VStr?
    ensures r.Some? ==> r.value == m[k].str
  {
    if k in m && m[k].VStr? then Some(m[k].str) else None
  }

  /** A string field, or "" when it is missing or not a string. */
  function FieldOr(m: map<string, Value>, k: string): string {
    match FieldString(m, k)
    case Some(s) => s
    case None => ""
  }

  // ---------------------------------------------------------------- global settings, rule files, alerting

  datatype GlobalSettings = GlobalSettings(
    scrapeInterval: Option<string>,
    scrapeTimeout: Option<string>,
    evaluationInterval: Option<string>,
    externalLabels: map<string, Value>)

  /** The "global" block when it is a mapping; external labels only when they are a mapping. */
  function GlobalOf(config: map<string, Value>): (r: Option<GlobalSettings>)
    ensures r.Some? <==> "global" in config && config["global"].VMap?
    ensures r.Some? ==>
              var g := config["global"].fields;
              r.value.scrapeInterval == FieldString(g, "scrape_interval") &&
              r.value.scrapeTimeout == FieldString(g, "scrape_timeout") &&
              r.value.evaluationInterval == FieldString(g, "evaluation_interval") &&
              r.value.externalLabels ==
                (if "external_labels" in g && g["external_labels"].VMap? then g["external_labels"].fields else map[])
  {
    if "global" in config && config["global"].VMap? then
      var g := config["global"].fields;
      var labels := if "external_labels" in g && g["external_labels"].VMap? then g["external_labels"].fields else map[];
      Some(GlobalSettings(FieldString(g, "scrape_interval"), FieldString(g, "scrape_timeout"),
                          FieldString(g, "evaluation_interval"), labels))
    else None
  }

  /** The string entries of a list, in order. */
  function StringEntries(items: seq<Value>): (r: seq<string>)
    ensures |r| == |Filter(items, IsString)|
    ensures forall i :: 0 <= i < |r| ==> r[i] == Filter(items, IsString)[i].str
    ensures forall s :: s in r ==> VStr(s) in items
  {
    if |items| == 0 then []
    else
      var rest := StringEntries(items[..|items| - 1]);
      var last := items[|items| - 1];
      if last.VStr? then rest + [last.str] else rest
  }

  lemma {:induction false} StringEntriesAll(items: seq<Value>, s: string)
    requires VStr(s) in items
    ensures s in StringEntries(items)
  {
    var init := items[..|items| - 1];
    if items[|items| - 1] != VStr(s) {
      assert items == init + [items[|items| - 1]];
      StringEntriesAll(init, s);
    }
  }

  /** The "Rule Files" block: how many entries the list has, and the names of its string entries. */
  datatype RuleFiles = RuleFiles(count: nat, names: seq<string>)

  function RuleFilesOf(config: map<string, Value>): (r: Option<RuleFiles>)
    ensures r.Some? <==> "rule_files" in config && config["rule_files"].VList? && |config["rule_files"].items| > 0
    ensures r.Some? ==> r.value.count == |config["rule_files"].items| &&
                        r.value.names == StringEntries(config["rule_files"].items) &&
                        |r.value.names| <= r.value.count
  {
    if "rule_files" in config && config["rule_files"].VList? && |config["rule_files"].items| > 0 then
      var items := config["rule_files"].items;
      Some(RuleFiles(|items|, StringEntries(items)))
    else None
  }

  /** What is shown of one Alertmanager configuration. */
  datatype AlertmanagerConfig = AlertmanagerConfig(scheme: Option<string>, pathPrefix: Option<string>, timeout: Option<string>)

  /** The scheme, path prefix and timeout of one entry, each shown only when it is a string. */
  function ConfigOf(entry: map<string, Value>): AlertmanagerConfig {
    AlertmanagerConfig(FieldString(entry, "scheme"), FieldString(entry, "path_prefix"), FieldString(entry, "timeout"))
  }

  /** The mapping entries of an "alertmanagers" list, in order; other entries show nothing. */
  function AlertmanagerConfigs(items: seq<Value>): (r: seq<AlertmanagerConfig>)
    ensures |r| == |Filter(items, IsMapping)| <= |items|
    ensures forall i :: 0 <= i < |r| ==> r[i] == ConfigOf(Filter(items, IsMapping)[i].fields)
  {
    if |items| == 0 then []
    else
      var rest := AlertmanagerConfigs(items[..|items| - 1]);
      var last := items[|items| - 1];
      if last.VMap? then rest + [ConfigOf(last.fields)]
      else rest
  }

  datatype Alerting = Alerting(count: nat, configs: seq<AlertmanagerConfig>)

  /** The "AlertManager Configs" block: only for a non-empty "alertmanagers" list in an "alerting" mapping. */
  function AlertingOf(config: map<string, Value>): (r: Option<Alerting>)
    ensures r.Some? <==>
              "alerting" in config && config["alerting"].VMap? &&
              "alertmanagers" in config["alerting"].fields &&
              config["alerting"].fields["alertmanagers"].VList? &&
              |config["alerting"].fields["alertmanagers"].items| > 0
    ensures r.Some? ==> r.value.count == |config["alerting"].fields["alertmanagers"].items| &&
                        r.value.configs == AlertmanagerConfigs(config["alerting"].fields["alertmanagers"].items) &&
                        |r.value.configs| <= r.value.count
  {
    if "alerting" in config && config["alerting"].VMap? then
      var a := config["alerting"].fields;
      if "alertmanagers" in a && a["alertmanagers"].VList? && |a["alertmanagers"].items| > 0 then
        Some(Alerting(|a["alertmanagers"].items|, AlertmanagerConfigs(a["alertmanagers"].items)))
      else None
    else None
  }

  // ---------------------------------------------------------------- scrape jobs

  datatype ScrapeJob = ScrapeJob(name: string, interval: string, timeout: string, metricsPath: string)

  /** The job of one scrape config: fields that are missing or not strings stay "". */
  function JobOf(sc: map<string, Value>): ScrapeJob {
    ScrapeJob(FieldOr(sc, "job_name"), FieldOr(sc, "scrape_interval"), FieldOr(sc, "scrape_timeout"),
              FieldOr(sc, "metrics_path"))
  }

  /** The jobs of a "scrape_configs" list: one per mapping entry, in order. */
  function JobsOf(entries: seq<Value>): seq<ScrapeJob> {
    if |entries| == 0 then []
    else
      var rest := JobsOf(entries[..|entries| - 1]);
      var last := entries[|entries| - 1];
      if last.VMap? then rest + [JobOf(last.fields)] else rest
  }

  /** There are at most as many jobs as entries, and as many exactly when every entry is a mapping. */
  lemma {:induction false} JobsCount(entries: seq<Value>)
    ensures |JobsOf(entries)| <= |entries|
    ensures |JobsOf(entries)| == |entries| <==> forall i :: 0 <= i < |entries| ==> entries[i].VMap?
  {
    if |entries| > 0 {
      var init := entries[..|entries| - 1];
      JobsCount(init);
      if forall i :: 0 <= i < |entries| ==> entries[i].VMap? {
        assert forall i :: 0 <= i < |init| ==> init[i].VMap? by {
          forall i | 0 <= i < |init| ensures init[i].VMap? { assert init[i] == entries[i]; }
        }
      }
      if !entries[|entries| - 1].VMap? {
        assert |JobsOf(entries)| < |entries|;
      } else if !(forall i :: 0 <= i < |init| ==> init[i].VMap?) {
        var i :| 0 <= i < |init| && !init[i].VMap?;
        assert !entries[i].VMap?;
      }
    }
  }

  /** A job is listed exactly when some mapping entry describes it. */
  lemma {:induction false} JobsMembership(entries: seq<Value>, j: ScrapeJob)
    ensures j in JobsOf(entries) <==> exists i :: 0 <= i < |entries| && entries[i].VMap? && JobOf(entries[i].fields) == j
  {
    if |entries| > 0 {
      var init := entries[..|entries| - 1];
      var last := entries[|entries| - 1];
      JobsMembership(init, j);
      if exists i :: 0 <= i < |entries| && entries[i].VMap? && JobOf(entries[i].fields) == j {
        var i :| 0 <= i < |entries| && entries[i].VMap? && JobOf(entries[i].fields) == j;
        if i < |init| {
          assert init[i] == entries[i];
        }
      }
      if j in JobsOf(init) {
        var i :| 0 <= i < |init| && init[i].VMap? && JobOf(init[i].fields) == j;
        assert entries[i] == init[i];
      }
    }
  }

  /** The loop over "scrape_configs" that collects the jobs. */
  method CollectJobs(entries: seq<Value>) returns (jobs: seq<ScrapeJob>)
    ensures jobs == JobsOf(entries)
  {
    jobs := [];
    for i := 0 to |entries|
      invariant jobs == JobsOf(entries[..i])
    {
      assert entries[..i + 1][..i] == entries[..i];
      if entries[i].VMap? {
        jobs := jobs + [JobOf(entries[i].fields)];
      }
    }
    assert entries[..|entries|] == entries;
  }

  predicate JobLess(a: ScrapeJob, b: ScrapeJob) { LexLess(a.name, b.name) }

  lemma JobOrderStrict()
    ensures StrictWeakOrder(JobLess)
  {
    forall x: ScrapeJob, y: ScrapeJob, z: ScrapeJob | !JobLess(x, y) && !JobLess(y, x) && !JobLess(y, z) && !JobLess(z, y)
      ensures !JobLess(x, z) && !JobLess(z, x)
    {
      LexIncomparable(x.name, y.name);
      LexIncomparable(y.name, z.name);
    }
    forall x: ScrapeJob ensures !JobLess(x, x) {
      LexLessIrreflexive(x.name);
    }
    forall x: ScrapeJob, y: ScrapeJob, z: ScrapeJob | JobLess(x, y) && JobLess(y, z) ensures JobLess(x, z) {
      LexLessTransitive(x.name, y.name, z.name);
    }
  }

  /** One line of the job table. */
  datatype JobRow = JobRow(name: string, interval: string, timeout: string)

  /** An unset interval or timeout is shown as "(default)"; names are cut to 50 characters. */
  function RowOf(j: ScrapeJob): (r: JobRow)
    ensures |r.name| <= 50
    ensures |j.name| <= 50 ==> r.name == j.name
    ensures |j.name| > 50 ==> |r.name| == 50 && r.name[..47] == j.name[..47] && r.name[47..] == "..."
    ensures r.interval == (if j.interval == "" then "(default)" else j.interval)
    ensures r.timeout == (if j.timeout == "" then "(default)" else j.timeout)
  {
    var name := Truncate(j.name, 50);
    JobRow(name, if j.interval == "" then "(default)" else j.interval, if j.timeout == "" then "(default)" else j.timeout)
  }

  /** The "Scrape Jobs" block: the number of entries and the jobs sorted by name. */
  datatype ScrapeSection = ScrapeSection(jobCount: nat, jobs: seq<ScrapeJob>)

  datatype ConfigSummary = ConfigSummary(
    global: Option<GlobalSettings>,
    retention: Option<string>,
    retentionSize: Option<string>,
    scrape: Option<ScrapeSection>,
    ruleFiles: Option<RuleFiles>,
    alerting: Option<Alerting>)

  function FlagOf(flags: map<string, string>, k: string): Option<string> {
    if k in flags then Some(flags[k]) else None
  }

  /** The summary drawn from a parsed configuration and the flags. */
  ghost predicate SummaryOf(s: ConfigSummary, config: map<string, Value>, flags: map<string, string>) {
    s.global == GlobalOf(config) &&
    s.retention == FlagOf(flags, "storage.tsdb.retention.time") &&
    s.retentionSize == FlagOf(flags, "storage.tsdb.retention.size") &&
    s.ruleFiles == RuleFilesOf(config) &&
    s.alerting == AlertingOf(config) &&
    (s.scrape.Some? <==> "scrape_configs" in config && config["scrape_configs"].VList?) &&
    (s.scrape.Some? ==>
       var entries := config["scrape_configs"].items;
       s.scrape.value.jobCount == |entries| &&
       multiset(s.scrape.value.jobs) == multiset(JobsOf(entries)) &&
       SortedBy(s.scrape.value.jobs, JobLess))
  }

  /**
   * `prometheusConfigSummary`: read the config response (failing when it
   * cannot be read), read the flags (ignoring failure), parse the YAML
   * (failing on error) and summarise it. The "replica" argument is unused.
   */
  method PrometheusConfigSummary(root: Node, mg: Path, dec: ConfigDecoders) returns (r: Result<ConfigSummary, ConfigError>)
    ensures var dir := Loader.ContainerDir(root, mg);
            var read := ReadJSON(root, ConfigFile(dir), dec.config);
            (read.Err? ==> r == Err(ConfigReadFailed(read.error))) &&
            (read.Ok? && ParseConfig(read.value, dec.yaml).None? ==> r == Err(ConfigParseFailed)) &&
            (read.Ok? && ParseConfig(read.value, dec.yaml).Some? ==>
               r.Ok? && SummaryOf(r.value, ParseConfig(read.value, dec.yaml).value, Flags(root, dir, dec.flags)))
  {
    var found := Loader.FindContainerDir(root, mg);
    var dir := if found.Ok? then found.value else mg;
    assert dir == Loader.ContainerDir(root, mg);
    var read := ReadJSON(root, ConfigFile(dir), dec.config);
    if read.Err? {
      return Err(ConfigReadFailed(read.error));
    }
    var flags := Flags(root, dir, dec.flags);
    var parsed := ParseConfig(read.value, dec.yaml);
    if parsed.None? {
      return Err(ConfigParseFailed);
    }
    var config := parsed.value;
    var scrape := None;
    if "scrape_configs" in config && config["scrape_configs"].VList? {
      var entries := config["scrape_configs"].items;
      var jobs := CollectJobs(entries);
      JobOrderStrict();
      var sorted := SortBy(jobs, JobLess);
      scrape := Some(ScrapeSection(|entries|, sorted));
    }
    r := Ok(ConfigSummary(GlobalOf(config), FlagOf(flags, "storage.tsdb.retention.time"),
                          FlagOf(flags, "storage.tsdb.retention.size"), scrape, RuleFilesOf(config), AlertingOf(config)));
  }

  // ---------------------------------------------------------------- service monitors

  /** `parseGVK("monitoring.coreos.com/v1", "ServiceMonitor")`. */
  function ServiceMonitorKind(): (g: GVK)
    ensures g == GVK("monitoring.coreos.com", "v1", "ServiceMonitor")
  {
    ParseGVKRoundTrip("monitoring.coreos.com", "v1", "ServiceMonitor");
    assert GroupVersionString("monitoring.coreos.com", "v1") == "monitoring.coreos.com/v1";
    ParseGVK("monitoring.coreos.com/v1", "ServiceMonitor")
  }

  datatype MonitorInfo = MonitorInfo(name: string, namespace: string)

  /** The name and namespace a listed object is shown under. */
  function InfoOf(o: Object): MonitorInfo {
    MonitorInfo(GetName(o), GetNamespace(o))
  }

  /** The namespace filter: the namespace contains `nsFilter`, ignoring case. */
  function PassingMonitor(nsFilter: string): Object -> bool {
    (o: Object) => ContainsFold(GetNamespace(o), nsFilter)
  }

  /** The monitors whose namespace contains the filter, ignoring case, in list order. */
  function MonitorsOf(items: seq<Object>, nsFilter: string): (r: seq<MonitorInfo>)
    ensures |r| == |Filter(items, PassingMonitor(nsFilter))| <= |items|
    ensures forall i :: 0 <= i < |r| ==> r[i] == InfoOf(Filter(items, PassingMonitor(nsFilter))[i])
    ensures forall m :: m in r ==> ContainsFold(m.namespace, nsFilter)
    ensures nsFilter == "" ==> |r| == |items|
  {
    if |items| == 0 then []
    else
      var rest := MonitorsOf(items[..|items| - 1], nsFilter);
      var o := items[|items| - 1];
      if ContainsFold(GetNamespace(o), nsFilter) then rest + [InfoOf(o)] else rest
  }

  /** Every listed object whose namespace passes appears, under its own name and namespace. */
  lemma {:induction false} MonitorsComplete(items: seq<Object>, nsFilter: string, o: Object)
    requires o in items && ContainsFold(GetNamespace(o), nsFilter)
    ensures MonitorInfo(GetName(o), GetNamespace(o)) in MonitorsOf(items, nsFilter)
  {
    var init := items[..|items| - 1];
    if items[|items| - 1] != o {
      assert items == init + [items[|items| - 1]];
      MonitorsComplete(init, nsFilter, o);
    }
  }

  /** One more item extends the monitors by its entry exactly when it passes. */
  lemma MonitorsStep(items: seq<Object>, nsFilter: string, i: int)
    requires 0 <= i < |items|
    ensures MonitorsOf(items[..i + 1], nsFilter) ==
            MonitorsOf(items[..i], nsFilter) + (if ContainsFold(GetNamespace(items[i]), nsFilter) then [InfoOf(items[i])] else [])
  {
    assert items[..i + 1][..i] == items[..i];
  }

  /** The filtering loop over the listed ServiceMonitors. */
  method FilterMonitors(items: seq<Object>, nsFilter: string) returns (ms: seq<MonitorInfo>)
    ensures ms == MonitorsOf(items, nsFilter)
  {
    ms := [];
    for i := 0 to |items|
      invariant ms == MonitorsOf(items[..i], nsFilter)
    {
      MonitorsStep(items, nsFilter, i);
      var ns := GetNamespace(items[i]);
      var name := GetName(items[i]);
      if nsFilter != "" && !Contains(ToLower(ns), ToLower(nsFilter)) {
        continue;
      }
      ms := ms + [MonitorInfo(name, ns)];
    }
    assert items[..|items|] == items;
  }

  /** Namespace first, then name. */
  predicate MonitorLess(a: MonitorInfo, b: MonitorInfo) {
    if a.namespace != b.namespace then LexLess(a.namespace, b.namespace) else LexLess(a.name, b.name)
  }

  lemma MonitorOrderStrict()
    ensures StrictWeakOrder(MonitorLess)
  {
    forall x: MonitorInfo, y: MonitorInfo, z: MonitorInfo
      | !MonitorLess(x, y) && !MonitorLess(y, x) && !MonitorLess(y, z) && !MonitorLess(z, y)
      ensures !MonitorLess(x, z) && !MonitorLess(z, x)
    {
      LexIncomparable(x.namespace, y.namespace);
      LexIncomparable(y.namespace, z.namespace);
      LexIncomparable(x.name, y.name);
      LexIncomparable(y.name, z.name);
    }
    forall x: MonitorInfo ensures !MonitorLess(x, x) {
      LexLessIrreflexive(x.name);
    }
    forall x: MonitorInfo, y: MonitorInfo, z: MonitorInfo | MonitorLess(x, y) && MonitorLess(y, z)
      ensures MonitorLess(x, z)
    {
      if x.namespace == y.namespace && y.namespace == z.namespace {
        LexLessTransitive(x.name, y.name, z.name);
      } else if x.namespace == y.namespace {
      } else if y.namespace == z.namespace {
      } else {
        LexLessTransitive(x.namespace, y.namespace, z.namespace);
        if x.namespace == z.namespace {
          LexLessIrreflexive(x.namespace);
        }
      }
    }
  }

  /** The monitors of namespace `ns`, in order: `byNamespace[ns]`. */
  function Members(s: seq<MonitorInfo>, ns: string): (r: seq<MonitorInfo>)
    ensures |r| <= |s|
    ensures forall m :: m in r ==> m in s && m.namespace == ns
  {
    if |s| == 0 then []
    else
      var rest := Members(s[..|s| - 1], ns);
      if s[|s| - 1].namespace == ns then rest + [s[|s| - 1]] else rest
  }

  lemma MembersSnoc(s: seq<MonitorInfo>, m: MonitorInfo, ns: string)
    ensures Members(s + [m], ns) == Members(s, ns) + (if m.namespace == ns then [m] else [])
  {
    assert (s + [m])[..|s|] == s;
  }

  /** A namespace that some monitor has has at least one member. */
  lemma {:induction false} MembersNonEmpty(s: seq<MonitorInfo>, m: MonitorInfo)
    requires m in s
    ensures |Members(s, m.namespace)| > 0
  {
    var init := s[..|s| - 1];
    if s[|s| - 1] != m {
      assert s == init + [s[|s| - 1]];
      MembersNonEmpty(init, m);
    }
  }

  /** Membership counts of a namespace depend only on the multiset of monitors. */
  lemma {:induction false} MembersMultiset(s: seq<MonitorInfo>, ns: string, x: MonitorInfo)
    ensures multiset(Members(s, ns))[x] == if x.namespace == ns then multiset(s)[x] else 0
  {
    if |s| > 0 {
      var init := s[..|s| - 1];
      assert s == init + [s[|s| - 1]];
      MembersMultiset(init, ns, x);
    }
  }

  /** A namespace's members of a sorted list are sorted, that is by name. */
  lemma {:induction false} MembersSorted(s: seq<MonitorInfo>, ns: string)
    requires SortedBy(s, MonitorLess)
    ensures SortedBy(Members(s, ns), MonitorLess)
  {
    if |s| > 0 {
      var init := s[..|s| - 1];
      var last := s[|s| - 1];
      assert SortedBy(init, MonitorLess);
      MembersSorted(init, ns);
      var rest := Members(init, ns);
      if last.namespace == ns {
        forall i | 0 <= i < |rest| ensures !MonitorLess(last, rest[i]) {
          var k :| 0 <= k < |init| && init[k] == rest[i];
          assert s[k] == rest[i];
        }
      }
    }
  }

  /** The sizes of the groups of namespaces `nss`. */
  function GroupSizes(s: seq<MonitorInfo>, nss: seq<string>): nat {
    if |nss| == 0 then 0 else GroupSizes(s, nss[..|nss| - 1]) + |Members(s, nss[|nss| - 1])|
  }

  lemma {:induction false} GroupSizesSnoc(s: seq<MonitorInfo>, m: MonitorInfo, nss: seq<string>)
    requires NoDup(nss)
    ensures GroupSizes(s + [m], nss) == GroupSizes(s, nss) + (if m.namespace in nss then 1 else 0)
  {
    if |nss| > 0 {
      var init := nss[..|nss| - 1];
      var last := nss[|nss| - 1];
      assert NoDup(init);
      GroupSizesSnoc(s, m, init);
      MembersSnoc(s, m, last);
      assert nss == init + [last];
      assert last !in init;
    }
  }

  /** Grouping by distinct namespaces that cover every monitor loses and duplicates none. */
  lemma {:induction false} GroupSizesPartition(s: seq<MonitorInfo>, nss: seq<string>)
    requires NoDup(nss)
    requires forall m :: m in s ==> m.namespace in nss
    ensures GroupSizes(s, nss) == |s|
  {
    if |s| == 0 {
      GroupSizesEmpty(nss);
    } else {
      var init := s[..|s| - 1];
      assert s == init + [s[|s| - 1]];
      GroupSizesPartition(init, nss);
      GroupSizesSnoc(init, s[|s| - 1], nss);
    }
  }

  lemma {:induction false} GroupSizesEmpty(nss: seq<string>)
    ensures GroupSizes([], nss) == 0
  {
    if |nss| > 0 {
      GroupSizesEmpty(nss[..|nss| - 1]);
    }
  }

  datatype NamespaceGroup = NamespaceGroup(namespace: string, monitors: seq<MonitorInfo>)

  function GroupTotal(groups: seq<NamespaceGroup>): nat {
    if |groups| == 0 then 0 else GroupTotal(groups[..|groups| - 1]) + |groups[|groups| - 1].monitors|
  }

  lemma {:induction false} GroupTotalIsSizes(groups: seq<NamespaceGroup>, s: seq<MonitorInfo>, nss: seq<string>)
    requires |groups| == |nss|
    requires forall i :: 0 <= i < |groups| ==> groups[i].monitors == Members(s, nss[i])
    ensures GroupTotal(groups) == GroupSizes(s, nss)
  {
    if |groups| > 0 {
      GroupTotalIsSizes(groups[..|groups| - 1], s, nss[..|nss| - 1]);
    }
  }

  /** `byNamespace`: the grouping loop over the sorted monitors. */
  method GroupByNamespace(sorted: seq<MonitorInfo>) returns (byNamespace: map<string, seq<MonitorInfo>>)
    ensures byNamespace.Keys == set m | m in sorted :: m.namespace
    ensures forall k :: k in byNamespace ==> byNamespace[k] == Members(sorted, k)
  {
    byNamespace := map[];
    for i := 0 to |sorted|
      invariant byNamespace.Keys == set m | m in sorted[..i] :: m.namespace
      invariant forall k :: k in byNamespace ==> byNamespace[k] == Members(sorted[..i], k)
    {
      var mon := sorted[i];
      assert sorted[..i + 1] == sorted[..i] + [mon];
      forall k ensures Members(sorted[..i + 1], k) == Members(sorted[..i], k) + (if mon.namespace == k then [mon] else []) {
        MembersSnoc(sorted[..i], mon, k);
      }
      if mon.namespace !in byNamespace {
        assert forall m :: m in sorted[..i] ==> m.namespace != mon.namespace;
        MembersNone(sorted[..i], mon.namespace);
      }
      var prev := if mon.namespace in byNamespace then byNamespace[mon.namespace] else [];
      byNamespace := byNamespace[mon.namespace := prev + [mon]];
    }
    assert sorted[..|sorted|] == sorted;
  }

  lemma {:induction false} MembersNone(s: seq<MonitorInfo>, ns: string)
    requires forall m :: m in s ==> m.namespace != ns
    ensures Members(s, ns) == []
  {
    if |s| > 0 {
      assert forall m :: m in s[..|s| - 1] ==> m in s;
      MembersNone(s[..|s| - 1], ns);
    }
  }

  datatype MonitorReport = MonitorReport(total: nat, groups: seq<NamespaceGroup>)

  /** The report drawn from the monitors that passed the filter. */
  ghost predicate ReportOf(rep: MonitorReport, ms: seq<MonitorInfo>) {
    rep.total == |ms| &&
    (forall i, j :: 0 <= i < j < |rep.groups| ==> LexLess(rep.groups[i].namespace, rep.groups[j].namespace)) &&
    (forall m :: m in ms ==> exists i :: 0 <= i < |rep.groups| && rep.groups[i].namespace == m.namespace) &&
    (forall i :: 0 <= i < |rep.groups| ==>
       var g := rep.groups[i];
       |g.monitors| > 0 &&
       multiset(g.monitors) == multiset(Members(ms, g.namespace)) &&
       SortedBy(g.monitors, MonitorLess)) &&
    GroupTotal(rep.groups) == rep.total
  }

  /** Groups are listed in namespace order from the namespace-sorted monitors. */
  method BuildGroups(sorted: seq<MonitorInfo>, byNamespace: map<string, seq<MonitorInfo>>, namespaces: seq<string>)
    returns (groups: seq<NamespaceGroup>)
    requires forall k :: k in namespaces ==> k in byNamespace && byNamespace[k] == Members(sorted, k)
    ensures |groups| == |namespaces|
    ensures forall i :: 0 <= i < |groups| ==> groups[i] == NamespaceGroup(namespaces[i], Members(sorted, namespaces[i]))
  {
    groups := [];
    for i := 0 to |namespaces|
      invariant |groups| == i
      invariant forall k :: 0 <= k < i ==> groups[k] == NamespaceGroup(namespaces[k], Members(sorted, namespaces[k]))
    {
      groups := groups + [NamespaceGroup(namespaces[i], byNamespace[namespaces[i]])];
    }
  }

  /** A group holds the members of its namespace, which has some, sorted by name. */
  lemma GroupFacts(ms: seq<MonitorInfo>, sorted: seq<MonitorInfo>, ns: string)
    requires multiset(sorted) == multiset(ms) && SortedBy(sorted, MonitorLess)
    requires exists m :: m in sorted && m.namespace == ns
    ensures |Members(sorted, ns)| > 0
    ensures multiset(Members(sorted, ns)) == multiset(Members(ms, ns))
    ensures SortedBy(Members(sorted, ns), MonitorLess)
  {
    var m :| m in sorted && m.namespace == ns;
    MembersNonEmpty(sorted, m);
    forall x ensures multiset(Members(sorted, ns))[x] == multiset(Members(ms, ns))[x] {
      MembersMultiset(sorted, ns, x);
      MembersMultiset(ms, ns, x);
    }
    MembersSorted(sorted, ns);
  }

  /** The namespaces of `byNamespace`, sorted, are distinct and ascending. */
  method SortedNamespaces(byNamespace: map<string, seq<MonitorInfo>>) returns (namespaces: seq<string>)
    ensures NoDup(namespaces)
    ensures forall k :: k in namespaces <==> k in byNamespace
    ensures forall i, j :: 0 <= i < j < |namespaces| ==> LexLess(namespaces[i], namespaces[j])
  {
    var keys := Elements(byNamespace.Keys);
    LexOrderStrict();
    namespaces := SortBy(keys, LexLess);
    NoDupPermutation(keys, namespaces);
    SortedDistinctAscending(namespaces);
    forall k ensures k in namespaces <==> k in byNamespace {
      assert k in namespaces <==> multiset(namespaces)[k] > 0;
      assert k in keys <==> multiset(keys)[k] > 0;
    }
  }

  /** The report on the monitors that passed the filter: sort, group, order the namespaces. */
  method ReportFor(ms: seq<MonitorInfo>) returns (rep: MonitorReport)
    ensures ReportOf(rep, ms)
  {
    MonitorOrderStrict();
    var sorted := SortBy(ms, MonitorLess);
    if |sorted| == 0 {
      assert ms == [] by { assert |multiset(ms)| == 0; }
      return MonitorReport(0, []);
    }
    var byNamespace := GroupByNamespace(sorted);
    var namespaces := SortedNamespaces(byNamespace);
    var groups := BuildGroups(sorted, byNamespace, namespaces);
    rep := MonitorReport(|sorted|, groups);
    assert |multiset(sorted)| == |multiset(ms)|;
    forall m | m in ms ensures exists i :: 0 <= i < |groups| && groups[i].namespace == m.namespace {
      assert m in multiset(sorted);
      assert m.namespace in byNamespace;
      var i :| 0 <= i < |namespaces| && namespaces[i] == m.namespace;
      assert groups[i].namespace == m.namespace;
    }
    forall i | 0 <= i < |groups|
      ensures |groups[i].monitors| > 0
      ensures multiset(groups[i].monitors) == multiset(Members(ms, groups[i].namespace))
      ensures SortedBy(groups[i].monitors, MonitorLess)
    {
      assert namespaces[i] in byNamespace;
      GroupFacts(ms, sorted, namespaces[i]);
    }
    forall m | m in sorted ensures m.namespace in namespaces {
      assert m.namespace in byNamespace;
    }
    GroupSizesPartition(sorted, namespaces);
    GroupTotalIsSizes(groups, sorted, namespaces);
  }

  /**
   * `serviceMonitorList`: every ServiceMonitor of the index whose namespace
   * contains the filter (ignoring case), counted, and grouped by namespace
   * in namespace order with each group's monitors in name order.
   */
  method ServiceMonitorList(p: Provider, nsFilter: string)
    returns (r: Result<MonitorReport, ProviderError>, ghost listed: seq<Object>)
    requires p.Valid()
    ensures Enumerates(listed, BucketOf(p.index.byGVK, GVK("monitoring.coreos.com", "v1", "ServiceMonitor")))
    ensures r.Ok? && ReportOf(r.value, MonitorsOf(listed, nsFilter))
  {
    var gvk := ServiceMonitorKind();
    var list;
    list, listed := p.ListResources(gvk, "", ListOptions("", "", 0));
    if list.Err? {
      assert false;
    }
    assert list.value.items == listed;
    var ms := FilterMonitors(list.value.items, nsFilter);
    var rep := ReportFor(ms);
    return Ok(rep), listed;
  }
}
