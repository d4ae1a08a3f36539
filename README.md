# must-gather MCP server — a Dafny model of its core

The must-gather MCP server answers questions about an OpenShift
*must-gather* archive. That archive is a directory tree of YAML manifests,
JSON dumps and log files that was collected from a cluster. At start-up the
server loads every manifest into an in-memory **resource index**. The index
keeps three views:

- by group/version/kind and key;
- by namespace, kind and name;
- by label "key=value".

A **provider** answers list, get and label-selector queries over that index,
and reads the etcd health dump. The **loader** walks the archive: it finds
the container directory, reads the metadata and loads cluster-scoped and
namespaced manifests. The **log helpers** build pod-log paths and cut log
tails. On top of these sit the **toolsets**, one handler per tool:

- Prometheus status, targets and TSDB tables;
- rule and alert listings;
- the Prometheus configuration and ServiceMonitor summaries;
- node and ClusterOperator listings;
- network connectivity checks, the OVN resource table and scale lines;
- etcd health and object counts.

The toolsets also use the argument getters of the tool API.

The model is split into one module per source file:

- `Index` (class `ResourceIndex`), `Provider` (class `Provider`), `Loader`, `Logs`;
- `Api`, `MonitoringHelpers`, `Prometheus`, `Alerts`, `MonitoringConfig`;
- `Nodes`, `Operators` and `Conditions`, the condition lookup the two share;
- `Connectivity`, `NetworkInfo`, `Etcd` and `EtcdCounts`.

They share a few small modules:

- `Wrappers`: `Option` and `Result`.
- `Text`: the Go `strings` helpers that are used.
- `Seqs`: filter, limit, tail, and an insertion sort standing in for `sort.Slice`.
- `Int64`: two's-complement wrap-around for `int64` sums.
- `Unstructured`: the decoded-object values and their accessors.
- `FileTree`: the archive as a tree of directories and files.
- `GoMaps`: ranging over a Go map in an unspecified order.

Code that updates state step by step is modelled as methods with loops. This
covers the index's `Add`, the append and count loops of the handlers, and
the sliding window of the gzip tail. Each such method is proved against a
specification function, and the properties are proved about that function.
Pure helpers are modelled as functions.

## Model

| member | source | states |
|---|---|---|
| Index.AddToKinds | pkg/mustgather/index.go:57-62 | the kind view gains the record's kind; the record is filed under its bare name when cluster-scoped, else under "namespace/name", replacing any earlier record with that key; every other kind bucket is unchanged |
| Index.AddToNamespaces | pkg/mustgather/index.go:64-73 | a cluster-scoped record leaves the namespace view unchanged; a namespaced one is filed under its namespace, kind and bare name, and other namespaces are untouched |
| Index.Stamp | pkg/mustgather/index.go:75-83 | each "k=v" label key of the record receives the record under "namespace/name"; label buckets the record does not carry are unchanged |
| Index.StampLabels | pkg/mustgather/index.go:75-83 | the loop over a record's labels stamps exactly the set of its "k=v" keys |
| Index.AddKindsKeyed | pkg/mustgather/index.go:57-62 | adding a record keeps the kind view keyed consistently: each stored record sits under its own kind and key |
| Index.AddNamespacesKeyed | pkg/mustgather/index.go:64-73 | adding a record keeps the namespace view keyed by a non-empty namespace, the record's kind and its name |
| Index.AddLabelsKeyed | pkg/mustgather/index.go:75-83 | adding a record keeps every label bucket entry under "namespace/name" of a record that carries that label |
| Index.BuildKeyed | pkg/mustgather/index.go:35-44 | after building from any record list, all three views are keyed consistently |
| Index.LastWhere | pkg/mustgather/index.go:35-44 | the last record satisfying a test; none exactly when no record does |
| Index.BuildKindsLookup | pkg/mustgather/index.go:35-62 | a kind bucket holds a key iff some loaded record has that kind and key, and it holds the last such record (last write wins) |
| Index.BuildNamespacesLookup | pkg/mustgather/index.go:35-73 | a namespace bucket holds a name iff some loaded record has that namespace, kind and name, and it holds the last such record |
| Index.BuildLabelsLookup | pkg/mustgather/index.go:35-83 | a label bucket holds "namespace/name" iff some record with that identity carries the label, and it holds the last such record of any kind |
| Index.NamespaceViewAgrees | pkg/mustgather/index.go:57-73 | for slash-free names the namespace view and the kind view hold the same records: name in namespace ns iff "ns/name" in the kind bucket |
| Index.Terms | pkg/mustgather/index.go:151-165 | the selector's comma-separated terms, each trimmed of Unicode white space as `strings.TrimSpace` does; at least one term |
| Index.Matching | pkg/mustgather/index.go:153-180 | a record key survives iff every term's label bucket holds it; the result is drawn from the first term's bucket |
| Index.MatchingMissing | pkg/mustgather/index.go:157-170 | a term without a label bucket makes the whole selection empty |
| Index.MatchingStep | pkg/mustgather/index.go:172-179 | one more term intersects the candidates with that term's bucket and keeps the candidates' records |
| Index.AddPairs | pkg/mustgather/index.go:57-62 | adding a record adds exactly its (kind, key) identity to the set of stored identities |
| Index.AddCount | pkg/mustgather/index.go:62 | the stored count grows by one for a new identity and stays the same when a record is replaced |
| Index.BuildPairs | pkg/mustgather/index.go:35-44 | the identities stored after a build are exactly the identities of the loaded records |
| Index.IdentitiesBound | pkg/mustgather/index.go:206-212 | the index never counts more records than were loaded |
| Index.MatchingAfterBuild | pkg/mustgather/index.go:145-189 | after a build, a key matches a selector iff for every term some record with that key carries the label; the record returned is the last one carrying the first term |
| Index.LabelKeysHaveEquals | pkg/mustgather/index.go:76-82 | every key of the label view contains "=" |
| Index.BlankTermMatchesNothing | pkg/mustgather/index.go:151-170 | a blank term, such as a trailing comma leaves, makes the selector match nothing |
| Index.ResourceIndex.constructor | pkg/mustgather/index.go:25-32 | a new index has three empty views and no namespaces |
| Index.ResourceIndex.Add | pkg/mustgather/index.go:47-84 | the three views are updated as AddToKinds, AddToNamespaces and AddToLabels say, and the keyed invariant is kept |
| Index.ResourceIndex.Get | pkg/mustgather/index.go:87-104 | an error for a missing kind, another for a missing key, otherwise the stored record |
| Index.ResourceIndex.List | pkg/mustgather/index.go:107-141 | every record of the namespace bucket, or of the kind bucket when the namespace is "", once each and in any order; empty for an unknown namespace or kind |
| Index.ResourceIndex.FindByLabel | pkg/mustgather/index.go:145-189 | nothing for an empty selector; otherwise each record whose key is in every term's bucket, once each |
| Index.ResourceIndex.ListGVKs | pkg/mustgather/index.go:192-198 | every indexed kind exactly once |
| Index.ResourceIndex.ListNamespaces | pkg/mustgather/index.go:201-203 | the namespace roster given at build time |
| Index.ResourceIndex.Count | pkg/mustgather/index.go:206-212 | the number of distinct (kind, key) identities stored |
| Index.BuildIndex | pkg/mustgather/index.go:35-44 | a fresh index whose views are those of adding the records in order, with the given roster |
| GoMaps.Enumerate | pkg/mustgather/index.go:124-137 | ranging over a bucket yields each of its values once, in some order |
| GoMaps.Intersect | pkg/mustgather/index.go:173-178 | the new candidates are the keys in both maps, with the candidates' records |
| Provider.KeepInScope | pkg/mustgather/provider.go:79-90 | keeps, in order, the label-selected records of the asked kind and, when a namespace is given, of that namespace |
| Provider.ApplyFieldSelector | pkg/mustgather/provider.go:265-292 | an error iff the selector has no "="; otherwise exactly the records whose dotted field path holds a string equal to the value |
| Provider.ConvertToUnstructuredSlice | pkg/mustgather/provider.go:295-301 | the same records in the same order |
| Provider.KindBucketRecords | pkg/mustgather/index.go:129-137 | every record listed from a kind bucket has that kind |
| Provider.NamespaceBucketRecords | pkg/mustgather/index.go:110-126 | every record listed from a namespace bucket has that kind and namespace |
| Provider.IsHealthy | pkg/mustgather/provider.go:184-202 | an endpoint is healthy iff its health is true, "true" or "healthy", or is an object whose "health" field is one of those |
| Provider.IsHealthyOneLevel | pkg/mustgather/provider.go:191-200 | a "health" object nested two levels deep does not count as healthy |
| Provider.DecodeAll | pkg/mustgather/provider.go:159-163 | an array of endpoints decodes iff every element does, one endpoint per element |
| Provider.FieldValue | pkg/mustgather/provider.go:150-153 | the value encoding/json puts in a struct field: the exactly spelled key when present, else a key equal to the field name ignoring case, and nothing iff no key matches ignoring case |
| Provider.DecodeEndpointFields | pkg/mustgather/provider.go:150-167 | an endpoint object decodes iff its address field is absent, null or a string; the address is that string or "", and the health is the matched value or null |
| Provider.DecodeEndpointIgnoresCase | pkg/mustgather/provider.go:150-167 | an object whose only address key is spelled in another case, such as "Endpoint", still gives its address |
| Provider.DecodeEndpoints | pkg/mustgather/provider.go:144-173 | an array gives one endpoint per element and an object gives one endpoint; any other JSON value is the unexpected-format error |
| Provider.AssessEndpoints | pkg/mustgather/provider.go:175-212 | one endpoint line per endpoint, with its address and "healthy" or "unhealthy"; the cluster is healthy iff every endpoint is |
| Provider.DecodeAlarms | pkg/mustgather/provider.go:214-225 | an alarm list decodes iff every element does; then one name per element, each the element's "alarm" string matched ignoring key case, or "" when absent or null |
| Provider.DecodeAlarm | pkg/mustgather/provider.go:217-222 | null gives ""; an object gives its "alarm" string, its key matched ignoring case, "" when absent or null, and fails for any other value; any other element fails |
| Provider.DecodeAlarmIgnoresCase | pkg/mustgather/provider.go:217-222 | an object whose only alarm key is spelled in another case, such as "Alarm", still gives its name |
| Provider.Provider.constructor | pkg/mustgather/provider.go:24-55 | the provider's index is freshly built from the loaded records and roster |
| Provider.Provider.GetResource | pkg/mustgather/provider.go:63-65 | the index's Get: the stored record, the missing-kind error iff the kind is not indexed, and the missing-key error iff the kind is indexed but the key is not |
| Provider.Provider.ListNamespaces | pkg/mustgather/provider.go:122-124 | the index's namespace roster |
| Provider.Provider.Candidates | pkg/mustgather/provider.go:72-97 | label-selected records filtered to the kind and namespace, or the namespace or kind bucket; all of the asked kind, and of the namespace when one is given |
| Provider.Provider.ListResources | pkg/mustgather/provider.go:68-119 | an error iff the field selector is non-empty without "="; otherwise the candidates, field-selected, cut to the limit, in a list whose apiVersion is the kind's group/version and whose kind is the kind plus "List" |
| Provider.ShapeList | pkg/mustgather/provider.go:99-118 | the field selector and the limit only remove records; the list header names the kind |
| Provider.Provider.GetETCDHealth | pkg/mustgather/provider.go:127-228 | a read error, a parse error or the format error when the health dump is unusable; otherwise one line per endpoint, healthy iff every endpoint is, plus the alarm names (none when the alarm file is unusable) |
| Provider.NewProvider | pkg/mustgather/provider.go:24-55 | fails exactly when the load fails (missing path, cluster-scoped or namespaced walk error), with that error; on success the index holds the views built from the cluster-scoped then namespaced records, the roster is each loaded namespace once, and the metadata carries the version, the last start and end stamps and the record and namespace counts |
| Loader.IsYAMLFile | pkg/mustgather/loader.go:293-296 | a YAML file's lower-cased extension is ".yaml" or ".yml" |
| Loader.IsYAMLFileBySuffix | pkg/mustgather/loader.go:293-296 | a path is a YAML file iff its lower-cased name ends in ".yaml" or ".yml" |
| Loader.SuffixExt | pkg/mustgather/loader.go:293-296 | for a dot-led lower-case suffix without another dot, the lower-cased extension equals it iff the lower-cased name ends with it |
| Loader.DecodeMapping | pkg/mustgather/loader.go:229-240 | an unreadable file is a read error; a decoded record comes only from a readable, well-formed document |
| Loader.LoadSingleResourceFile | pkg/mustgather/loader.go:228-246 | fails iff the file cannot be read or decoded; an empty mapping gives no record, any other mapping gives itself |
| Loader.MapItems | pkg/mustgather/loader.go:270-283 | the mapping-typed list items, and only those |
| Loader.MapItemsAppend | pkg/mustgather/loader.go:272-282 | collecting items distributes over concatenation |
| Loader.MapItemsSkip | pkg/mustgather/loader.go:275-277 | an item that is not a mapping is skipped |
| Loader.CollectMapItems | pkg/mustgather/loader.go:272-282 | the append loop yields exactly the mapping-typed items, in order |
| Loader.LoadMultiResourceFile | pkg/mustgather/loader.go:250-290 | fails iff the file cannot be read or decoded; an empty mapping gives nothing, a "...List" kind gives its mapping items, any other document gives itself |
| Loader.ClusterSkip | pkg/mustgather/loader.go:153-162 | a cluster-scoped file that fails to load or is empty is skipped and the walk goes on |
| Loader.NamespacedSkip | pkg/mustgather/loader.go:196-206 | a namespaced file that fails to load is skipped and the walk goes on |
| Loader.LoadClusterScopedResources | pkg/mustgather/loader.go:139-168 | a failed walk is returned as the error; otherwise one record per non-empty YAML file walked, in walk order |
| Loader.CollectCluster | pkg/mustgather/loader.go:143-165 | the walk callback's appends equal the records of the visited YAML files in order |
| Loader.CollectNamespaced | pkg/mustgather/loader.go:192-211 | the walk callback's appends equal the records of the visited YAML files in order |
| Loader.NamespacesRecordsFiles | pkg/mustgather/loader.go:182-185 | an entry of the namespaces directory that is not a directory adds neither records nor a namespace |
| Loader.LoadNamespacedResources | pkg/mustgather/loader.go:172-225 | a listing error or the first failing namespace walk is the error; otherwise the records of every namespace directory and each namespace name exactly once |
| Loader.NamespacesRecordsAbort | pkg/mustgather/loader.go:182-216 | once one namespace walk fails, later namespaces do not change the outcome |
| Loader.FindContainerDir | pkg/mustgather/loader.go:87-104 | a listing error, or the first sub-directory whose name starts with "quay" or contains "sha256", or not found |
| Loader.FirstContainerUnique | pkg/mustgather/loader.go:94-100 | there is at most one first container directory |
| Loader.ContainerIndex | pkg/mustgather/loader.go:94-103 | the index of the first container-looking entry; none when no entry looks like one |
| Loader.LastStampAppend | pkg/mustgather/loader.go:118-132 | a later "started"/"ended" line overrides every earlier one |
| Loader.ScanStamps | pkg/mustgather/loader.go:116-133 | the line loop trims each line of Unicode white space and finds the last parseable "started " and "ended " stamps |
| Loader.LoadMetadata | pkg/mustgather/loader.go:107-135 | the version is the version file trimmed of Unicode white space ("" when unreadable); the times are the last parseable stamps of the timestamp file, zero when none |
| Loader.LoadClusterPart | pkg/mustgather/loader.go:59-66 | the cluster-scoped records, or nothing when that directory is absent |
| Loader.LoadNamespacedPart | pkg/mustgather/loader.go:69-77 | the namespaced records and the namespace names once each, or nothing when that directory is absent |
| Loader.Load | pkg/mustgather/loader.go:32-83 | a missing path is an error; the container directory is used when present; a failing part is its error; otherwise the cluster-scoped then namespaced records, the namespaces once each, and metadata whose counts are those lengths |
| Logs.TailLines | pkg/mustgather/logs.go:220-227 | content with at most n lines is returned unchanged |
| Logs.TailLinesSuffix | pkg/mustgather/logs.go:220-227 | the tail is always a suffix of the content |
| Logs.TailLinesParts | pkg/mustgather/logs.go:220-227 | for n > 0 the tail's lines are exactly the last n lines of the content |
| Logs.ScanLines | pkg/mustgather/logs.go:243-246 | the scanner's tokens are the "\n"-separated lines with a trailing "\r" dropped, in order; exactly one fewer than the parts when the content ends in "\n" (or is empty), otherwise every part, so a non-empty last line is kept |
| Logs.TailWindow | pkg/mustgather/logs.go:230-253 | n = 0 gives the whole content; otherwise the window loop gives the last n scanned lines joined by "\n" |
| Logs.PodDir | pkg/mustgather/logs.go:65-66 | the pod directory is namespaces/<ns>/pods/<pod> under the container directory |
| Logs.PodLogPath | pkg/mustgather/logs.go:24-35 | the log path is <pod dir>/<container>/<container>/logs/<type>.log |
| Logs.GetPodLog | pkg/mustgather/logs.go:17-56 | not-found when the log path is absent, a read error when unreadable; otherwise the content, cut to its tail when a positive tail is asked |
| Logs.ContainersWithLogs | pkg/mustgather/logs.go:78-88 | a container is listed iff it is a sub-directory of the pod that has a <c>/<c>/logs entry of any kind, as `os.Stat` checks |
| Logs.ListPodContainers | pkg/mustgather/logs.go:59-91 | pod not found, a listing error, or the containers that have logs |
| Logs.SubdirNames | pkg/mustgather/logs.go:178-183 | exactly the names of the sub-directories |
| Logs.ListNodes | pkg/mustgather/logs.go:160-186 | no nodes when the nodes directory is absent, a listing error, or its sub-directory names |
| Api.NewToolCallResult | pkg/api/toolsets.go:43-48 | content and error are stored unchanged |
| Api.GetString | pkg/api/toolsets.go:61-69 | the argument when present and a string, else the default |
| Api.GetBool | pkg/api/toolsets.go:72-80 | the argument when present and a bool, else the default |
| Api.GetInt | pkg/api/toolsets.go:83-94 | an int argument as is, a float argument converted, the default otherwise |
| Api.GettersReadOneKey | pkg/api/toolsets.go:61-94 | each getter reads only its own key: setting another key does not change its result |
| Api.GettersReturnSetValue | pkg/api/toolsets.go:61-94 | a typed value stored under a key is what the getter returns, whatever the default |
| MonitoringHelpers.PrometheusReplicaPath | pkg/toolsets/monitoring/helpers.go:35-38 | the replica directory is "prometheus-k8s-<n>" under the common Prometheus directory |
| MonitoringHelpers.PrometheusCommonPath | pkg/toolsets/monitoring/helpers.go:41-43 | the common directory lies two levels below the container directory |
| MonitoringHelpers.AlertManagerPath | pkg/toolsets/monitoring/helpers.go:46-48 | the Alertmanager directory is the sibling "alertmanager" of the Prometheus directory |
| MonitoringHelpers.ReadJSON | pkg/toolsets/monitoring/helpers.go:51-60 | succeeds iff the file is readable and decodes; a read failure and a decode failure are distinct errors |
| MonitoringHelpers.ReplicaNumbers | pkg/toolsets/monitoring/helpers.go:69-78 | replica "0" or "prometheus-k8s-0" gives [0], "1" or "prometheus-k8s-1" gives [1], anything else both |
| MonitoringHelpers.ReplicaPathsUnderCommon | pkg/toolsets/monitoring/helpers.go:35-78 | every replica path read lies under the common directory and names replica 0 or 1 |
| MonitoringHelpers.Chunks | pkg/toolsets/monitoring/helpers.go:95-109 | the reference grouping: a first group of one to three characters, then groups of exactly three |
| MonitoringHelpers.CommaedIsGroup | pkg/toolsets/monitoring/helpers.go:100-107 | the comma-insertion loop's output equals the groups of three joined by commas |
| MonitoringHelpers.GroupDigits | pkg/toolsets/monitoring/helpers.go:95-109 | removing the commas from a grouped number gives back the digits |
| MonitoringHelpers.GroupParts | pkg/toolsets/monitoring/helpers.go:95-109 | splitting a grouped number at its commas gives the reference groups |
| MonitoringHelpers.FormatNumber | pkg/toolsets/monitoring/helpers.go:95-109 | the decimal form of the number with a comma before each group of three from the right |
| MonitoringHelpers.NegativeGrouping | pkg/toolsets/monitoring/helpers.go:95-109 | the minus sign counts as a digit, so -123 is shown as "-,123" |
| MonitoringHelpers.Pow1024Seven | pkg/toolsets/monitoring/helpers.go:85-90 | 1024 to the seventh exceeds every int64, so the unit loop stops by exabytes |
| MonitoringHelpers.FormatBytes | pkg/toolsets/monitoring/helpers.go:81-92 | below 1024 the plain byte count with " B"; otherwise the divisor 1024^(k+1) and unit letter "KMGTPE"[k] for which the quotient lies in 1..1023 |
| MonitoringHelpers.HealthSymbol | pkg/toolsets/monitoring/helpers.go:128-138 | ✓ iff the lower-cased health is up, healthy, ok or firing; ✗ iff it is down, unhealthy or error; ⚠ otherwise |
| MonitoringHelpers.SeveritySymbol | pkg/toolsets/monitoring/helpers.go:140-152 | ✗ iff the lower-cased severity is critical, ⚠ iff warning, ℹ iff info; • otherwise |
| MonitoringHelpers.StatusSymbol | pkg/toolsets/monitoring/helpers.go:154-166 | ✗ iff the lower-cased state is firing, ⚠ iff pending, ○ iff inactive; • otherwise |
| MonitoringHelpers.SymbolsIgnoreCase | pkg/toolsets/monitoring/helpers.go:128-165 | the health, severity and state symbols ignore letter case and always yield one of their fixed symbols |
| MonitoringHelpers.SymbolsOfUpperCase | pkg/toolsets/monitoring/helpers.go:128-165 | "UP", "Critical" and "FIRING" get the symbols of their lower-case forms |
| MonitoringHelpers.Truncate | pkg/toolsets/monitoring/helpers.go:168-176 | a short string is unchanged; up to maxLen 3 the plain prefix; otherwise maxLen characters ending in "..." |
| MonitoringHelpers.Severity | pkg/toolsets/monitoring/helpers.go:179-184 | the "severity" label, or "unknown" |
| MonitoringHelpers.LabelNamespace | pkg/toolsets/monitoring/helpers.go:187-192 | the "namespace" label, or "" |
| MonitoringHelpers.Job | pkg/toolsets/monitoring/helpers.go:195-200 | the "job" label, or "" |
| MonitoringHelpers.ParseGVK | pkg/toolsets/monitoring/helpers.go:209-224 | the kind is kept; an apiVersion without "/" or one that does not parse is all version, no group |
| MonitoringHelpers.ParseGVKRoundTrip | pkg/toolsets/monitoring/helpers.go:209-224 | parsing "group/version" (or a bare version) with a kind gives back that group, version and kind |
| Prometheus.ReplicaFilesDistinct | pkg/toolsets/monitoring/prometheus.go:104-116 | a replica's TSDB, runtime and targets files lie in its directory and are distinct |
| Prometheus.CountLine | pkg/toolsets/monitoring/prometheus.go:150-155 | a count line is shown iff the count is positive, showing that count |
| Prometheus.StatusSectionFor | pkg/toolsets/monitoring/prometheus.go:105-165 | a failed TSDB read is the replica's error; otherwise head stats, runtime info when readable, a corruption warning iff corruptions > 0, the unique-metric and label lines, and label memory iff its int64 sum is positive |
| Prometheus.PrometheusStatus | pkg/toolsets/monitoring/prometheus.go:89-170 | one section per selected replica, in order, each being what StatusSectionFor promises for that replica's TSDB and runtime files: the TSDB error, or head stats, runtime info iff readable, the corruption warning, the count lines and the label memory total iff positive |
| Prometheus.HealthCountPositive | pkg/toolsets/monitoring/prometheus.go:203-207 | a health value is tallied iff some target has it |
| Prometheus.HealthSummaryBound | pkg/toolsets/monitoring/prometheus.go:260-265 | the up, down and unknown tallies add up to at most the target count, and to exactly it when every target is one of those |
| Prometheus.TargetLess | pkg/toolsets/monitoring/prometheus.go:230-247 | a down target precedes any other, an unknown one precedes up and other healths, and equal healths compare by job |
| Prometheus.TargetLessByRank | pkg/toolsets/monitoring/prometheus.go:230-247 | targets are ordered down, then unknown, then up, then by job name |
| Prometheus.TargetOrderStrict | pkg/toolsets/monitoring/prometheus.go:230-247 | the target comparator is a strict weak order, as `sort.Slice` requires |
| Prometheus.TallyAndFilter | pkg/toolsets/monitoring/prometheus.go:203-227 | every target is tallied by health; the survivors of the health, job and namespace filters are kept in order |
| Prometheus.TargetsSectionFor | pkg/toolsets/monitoring/prometheus.go:200-273 | the tally of all targets, the survivors sorted and cut to the limit, and a filter note iff a filter is set |
| Prometheus.ListedTargetsSurvive | pkg/toolsets/monitoring/prometheus.go:203-253 | every listed target is one of the replica's targets and passes the filters; at most limit targets are listed |
| Prometheus.PrometheusTargets | pkg/toolsets/monitoring/prometheus.go:172-306 | one section per selected replica: the read error, or the targets section of its decoded targets |
| Prometheus.TopTableOf | pkg/toolsets/monitoring/prometheus.go:345-361 | no table for an empty list; otherwise the first min(top, length) entries and that displayed count |
| Prometheus.TopTableIsLimit | pkg/toolsets/monitoring/prometheus.go:345-361 | for a positive top, the table rows are the list cut to top |
| Prometheus.BuildTopTable | pkg/toolsets/monitoring/prometheus.go:345-361 | the table loop builds the top table |
| Prometheus.PrometheusTSDB | pkg/toolsets/monitoring/prometheus.go:308-405 | one section per selected replica: the read error, or head stats and the three top tables |
| Alerts.HealthFilterMeaning | pkg/toolsets/monitoring/alerts.go:169-180 | a rule passes the health filter iff the filter is not "ok", "err" or "unknown", or equals the rule's health |
| Alerts.StatsMeaning | pkg/toolsets/monitoring/alerts.go:183-195 | total counts the rules, alerting plus recording make the total, healthy and errors count the "ok" and "err" rules |
| Alerts.GroupOrderStrict | pkg/toolsets/monitoring/alerts.go:206-208 | the group comparator is a strict weak order, as `sort.Slice` requires |
| Alerts.ListedGroupsValid | pkg/toolsets/monitoring/alerts.go:157-202 | every listed group matches the group filter and keeps at least one rule, and every kept rule passes the rule filters |
| Alerts.CountedAreListed | pkg/toolsets/monitoring/alerts.go:157-202 | the counted rules are exactly the rules of the listed groups |
| Alerts.KeepRules | pkg/toolsets/monitoring/alerts.go:163-196 | the rules passing the filters are kept in order and the counters advance over exactly them |
| Alerts.FilterGroups | pkg/toolsets/monitoring/alerts.go:156-202 | the listed groups with their kept rules, and counters over the counted rules |
| Alerts.PrometheusRules | pkg/toolsets/monitoring/alerts.go:126-261 | the read error, or the listed groups sorted by name with the counters over the kept rules |
| Alerts.CollectedFromAlertingRules | pkg/toolsets/monitoring/alerts.go:297-331 | every collected alert comes from an alerting rule of some group, carries that group, rule name and rule severity, and passes the filters |
| Alerts.AlertLessAsWritten | pkg/toolsets/monitoring/alerts.go:334-346 | the comparator as written: lower severity rank first; within a rank, different states compare by "the first is firing"; equal states compare by rule name |
| Alerts.AlertLess | pkg/toolsets/monitoring/alerts.go:334-346 | the corrected comparator: lower severity rank first, then firing before every other state, then rule name (see Findings) |
| Alerts.AlertOrderNotWeak | pkg/toolsets/monitoring/alerts.go:334-346 | the comparator as written is not a strict weak order (see Findings) |
| Alerts.AlertIncomparable | pkg/toolsets/monitoring/alerts.go:334-346 | under the corrected order, two alerts are unordered iff they share severity rank, firing rank and rule name |
| Alerts.AlertOrderWeak | pkg/toolsets/monitoring/alerts.go:334-346 | the corrected order (severity, firing first, rule name) is a strict weak order |
| Alerts.AlertLessAgrees | pkg/toolsets/monitoring/alerts.go:334-346 | on firing and pending alerts the corrected order and the order as written agree |
| Alerts.CollectRule | pkg/toolsets/monitoring/alerts.go:303-329 | one rule's passing alerts are appended and the severity and state counts grow by exactly them |
| Alerts.CollectGroup | pkg/toolsets/monitoring/alerts.go:300-330 | one group's alerting rules are collected in order and the counts follow the items |
| Alerts.CollectAlerts | pkg/toolsets/monitoring/alerts.go:297-331 | the collection loop yields all passing alerts in order, with severity and state counts equal to their bags |
| Alerts.PrometheusAlerts | pkg/toolsets/monitoring/alerts.go:263-403 | the read error, or a permutation of the collected alerts sorted by severity, firing first and rule name, with counts over all of them |
| MonitoringConfig.ParseConfig | pkg/toolsets/monitoring/config.go:78-82 | the configuration is the decoded mapping (an empty document is an empty mapping); anything else is a parse failure |
| MonitoringConfig.FieldString | pkg/toolsets/monitoring/config.go:89-104 | a field is read iff it is present and a string |
| MonitoringConfig.GlobalOf | pkg/toolsets/monitoring/config.go:89-110 | the global section is shown iff "global" is a mapping, with its string scrape and evaluation settings, and the external labels exactly when "external_labels" is a mapping |
| MonitoringConfig.StringEntries | pkg/toolsets/monitoring/config.go:182-190 | exactly the string entries of the list, in order |
| MonitoringConfig.StringEntriesAll | pkg/toolsets/monitoring/config.go:182-190 | every string entry is kept |
| MonitoringConfig.RuleFilesOf | pkg/toolsets/monitoring/config.go:182-190 | the rule-file section is shown iff "rule_files" is a non-empty list, counting all its entries and naming its string entries in order |
| MonitoringConfig.AlertingOf | pkg/toolsets/monitoring/config.go:193-212 | the alerting section is shown iff there is a non-empty "alertmanagers" list, counting all its entries, with one configuration per mapping entry in order |
| MonitoringConfig.AlertmanagerConfigs | pkg/toolsets/monitoring/config.go:197-208 | one configuration per mapping entry, in order, with its scheme, path prefix and timeout where each is a string |
| MonitoringConfig.JobsCount | pkg/toolsets/monitoring/config.go:135-154 | one job per mapping entry; all entries give jobs iff all are mappings |
| MonitoringConfig.JobsMembership | pkg/toolsets/monitoring/config.go:135-154 | a job is listed iff some mapping entry yields it |
| MonitoringConfig.CollectJobs | pkg/toolsets/monitoring/config.go:135-154 | the append loop yields the jobs in entry order |
| MonitoringConfig.JobOrderStrict | pkg/toolsets/monitoring/config.go:157-159 | the job comparator is a strict weak order, as `sort.Slice` requires |
| MonitoringConfig.RowOf | pkg/toolsets/monitoring/config.go:162-175 | the job name is cut to 50 characters with "..."; an empty interval or timeout reads "(default)" |
| MonitoringConfig.Flags | pkg/toolsets/monitoring/config.go:72-75 | no flags when "flags.json" cannot be read; otherwise whatever the decoder stored, kept even when decoding reports an error |
| MonitoringConfig.PrometheusConfigSummary | pkg/toolsets/monitoring/config.go:52-215 | read and parse errors are reported; otherwise the global, retention, rule-file and alerting sections, and all scrape jobs sorted by name with the entry count |
| MonitoringConfig.ServiceMonitorKind | pkg/toolsets/monitoring/config.go:221-225 | the ServiceMonitor kind is monitoring.coreos.com/v1 ServiceMonitor |
| MonitoringConfig.MonitorsOf | pkg/toolsets/monitoring/config.go:237-250 | the name and namespace of each item whose namespace contains the filter, ignoring case, one entry per item, in list order; every item for an empty filter |
| MonitoringConfig.MonitorsComplete | pkg/toolsets/monitoring/config.go:237-250 | every monitor whose namespace matches the filter is kept |
| MonitoringConfig.FilterMonitors | pkg/toolsets/monitoring/config.go:237-250 | the filter loop yields the kept monitors in order |
| MonitoringConfig.MonitorOrderStrict | pkg/toolsets/monitoring/config.go:253-258 | the namespace-then-name comparator is a strict weak order, as `sort.Slice` requires |
| MonitoringConfig.MembersMultiset | pkg/toolsets/monitoring/config.go:272-275 | a namespace group holds exactly the monitors of that namespace |
| MonitoringConfig.MembersSorted | pkg/toolsets/monitoring/config.go:253-275 | grouping a sorted list keeps each group sorted |
| MonitoringConfig.GroupSizesPartition | pkg/toolsets/monitoring/config.go:264-282 | the groups of distinct namespaces covering every monitor add up to the total |
| MonitoringConfig.GroupTotalIsSizes | pkg/toolsets/monitoring/config.go:264-282 | the groups' sizes add up to the member counts of their namespaces |
| MonitoringConfig.GroupByNamespace | pkg/toolsets/monitoring/config.go:272-275 | the map has one entry per namespace that occurs, holding that namespace's monitors in order |
| MonitoringConfig.BuildGroups | pkg/toolsets/monitoring/config.go:285-293 | one group per sorted namespace, holding its members |
| MonitoringConfig.GroupFacts | pkg/toolsets/monitoring/config.go:253-275 | each occurring namespace's group is non-empty, sorted, and a permutation of its monitors |
| MonitoringConfig.SortedNamespaces | pkg/toolsets/monitoring/config.go:278-282 | each namespace of the map once, in ascending order |
| MonitoringConfig.ReportFor | pkg/toolsets/monitoring/config.go:253-293 | the total, and groups in namespace order that cover every monitor, each sorted and a permutation of its namespace's monitors, with sizes adding up to the total |
| MonitoringConfig.ServiceMonitorList | pkg/toolsets/monitoring/config.go:217-296 | the report over the filtered ServiceMonitors of the index |
| Conditions.ConditionFieldFirst | pkg/toolsets/cluster/operators.go:262-271 | the field of the first condition of the given type that has it; none iff no condition does |
| Conditions.ConditionStatus | pkg/toolsets/cluster/operators.go:254-274 | the status of the first condition of the type, or "Unknown" when there are no conditions or no such condition |
| Conditions.ConditionStatusMeaning | pkg/toolsets/cluster/operators.go:254-274 | a status other than "Unknown" comes from the first condition of that type |
| Nodes.RoleSetMember | pkg/toolsets/cluster/nodes.go:287-301 | r is a role iff the label "node-role.kubernetes.io/r" is present and r is not empty |
| Nodes.CollectRoles | pkg/toolsets/cluster/nodes.go:289-296 | the loop collects each non-empty role suffix once |
| Nodes.GetNodeRoles | pkg/toolsets/cluster/nodes.go:287-301 | the node's roles once each, in ascending order: the non-empty suffixes of its "node-role.kubernetes.io/" labels |
| Nodes.NodeStatus | pkg/toolsets/cluster/nodes.go:303-327 | "Ready" iff the Ready condition's status is "True", "Unknown" when there are no conditions or no Ready status, else "NotReady" |
| Nodes.NodeStatusAgreesWithCondition | pkg/toolsets/cluster/nodes.go:303-327 | "NotReady" exactly when a Ready status exists and is not "True" |
| Nodes.Truncate | pkg/toolsets/cluster/nodes.go:329-334 | a short string is unchanged; a long one becomes maxLen characters ending in "..." |
| Nodes.TruncateIdempotent | pkg/toolsets/cluster/nodes.go:329-334 | truncating twice is truncating once |
| Nodes.NameOrderStrict | pkg/toolsets/cluster/nodes.go:69-71 | ordering by name is a strict weak order, as `sort.Slice` requires |
| Nodes.ListedNodesMeaning | pkg/toolsets/cluster/nodes.go:80-107 | every listed node passes the role filter; filter "all" lists every node |
| Nodes.ListedNodesComplete | pkg/toolsets/cluster/nodes.go:80-107 | every node that passes the role filter is listed |
| Nodes.HasRole | pkg/toolsets/cluster/nodes.go:95-101 | true iff some role equals the filter ignoring case |
| Nodes.RowFor | pkg/toolsets/cluster/nodes.go:80-117 | a row iff the node passes the role filter |
| Nodes.NodeRows | pkg/toolsets/cluster/nodes.go:80-117 | one row per listed node in order; the filtered count is the number of rows |
| Nodes.NodeKind | pkg/toolsets/cluster/nodes.go:55 | the Node kind is v1 Node of the core group |
| Nodes.ClusterNodesList | pkg/toolsets/cluster/nodes.go:52-126 | no nodes iff the kind bucket is empty; otherwise rows for the name-sorted nodes that pass the role filter |
| Nodes.FindByName | pkg/toolsets/cluster/nodes.go:143-153 | the first index with the name; none iff no item has it |
| Nodes.ClusterNodeGet | pkg/toolsets/cluster/nodes.go:128-285 | the name-required error iff the name is empty; otherwise the first listed node with that name, with its roles and status, or not found iff none has it |
| Nodes.Detail | pkg/toolsets/cluster/nodes.go:143-160 | the first node with the name with its roles and status, or not found iff there is none |
| Operators.FormatStatus | pkg/toolsets/cluster/operators.go:276-285 | "True" and "False" get their marks, anything else reads "? Unknown" |
| Operators.FormatStatusDistinguishes | pkg/toolsets/cluster/operators.go:276-285 | two statuses display alike iff equal or both neither "True" nor "False" |
| Operators.RowOf | pkg/toolsets/cluster/operators.go:82-89 | the operator's name and the first status of its Available, Progressing and Degraded conditions ("Unknown" when missing) |
| Operators.Passes | pkg/toolsets/cluster/operators.go:91-105 | only "all", "degraded", "progressing" and "unavailable" can keep an operator |
| Operators.PassesMeaning | pkg/toolsets/cluster/operators.go:91-105 | the filter "degraded", "progressing" or "unavailable" keeps operators whose Degraded or Progressing status is "True", or whose Available status is "False"; "all" keeps all |
| Operators.RowsOf | pkg/toolsets/cluster/operators.go:80-107 | the rows are the rows of the operators passing the filter, in order; "all" gives one row per operator |
| Operators.RowsComplete | pkg/toolsets/cluster/operators.go:80-107 | every operator that passes the filter gets its row |
| Operators.UnknownFilterListsNothing | pkg/toolsets/cluster/operators.go:91-105 | an unrecognised filter lists no operator |
| Operators.OperatorRows | pkg/toolsets/cluster/operators.go:80-117 | the loop builds the filtered rows; the filtered count is their number |
| Operators.OperatorKind | pkg/toolsets/cluster/operators.go:55 | the kind is config.openshift.io/v1 ClusterOperator |
| Operators.ClusterOperatorsList | pkg/toolsets/cluster/operators.go:52-125 | no operators iff none are indexed; otherwise the total and the filtered rows of the name-sorted operators |
| Operators.ClusterOperatorGet | pkg/toolsets/cluster/operators.go:127-152 | the name-required error iff the name is empty; otherwise the first listed operator with that name, or not found iff none has it |
| Operators.Pick | pkg/toolsets/cluster/operators.go:142-152 | the first item with the name, or not found iff there is none |
| Connectivity.ConditionMessage | pkg/toolsets/network/connectivity.go:216-236 | the message of the first condition of the type, "" when absent |
| Connectivity.CountsBound | pkg/toolsets/network/connectivity.go:88-103 | failing plus degraded checks never exceed the total |
| Connectivity.FailingFilterIsCounted | pkg/toolsets/network/connectivity.go:88-119 | the "failing" filter shows exactly the checks counted as failing |
| Connectivity.DegradedFilterIsCounted | pkg/toolsets/network/connectivity.go:88-119 | the "degraded" filter shows exactly the checks counted as degraded |
| Connectivity.AllFilterKeepsAll | pkg/toolsets/network/connectivity.go:104-119 | the "all" filter shows every check |
| Connectivity.CheckObjects | pkg/toolsets/network/connectivity.go:72-78 | only mapping-typed items become checks |
| Connectivity.CheckObjectsComplete | pkg/toolsets/network/connectivity.go:72-78 | every mapping-typed item becomes a check |
| Connectivity.CollectChecks | pkg/toolsets/network/connectivity.go:72-78 | the append loop yields the checks in order |
| Connectivity.CountAndFilter | pkg/toolsets/network/connectivity.go:88-119 | the counters equal the failing and degraded counts and the kept checks are the filter's |
| Connectivity.ShortMessage | pkg/toolsets/network/connectivity.go:156-162 | messages of at most 150 characters are kept; longer ones become their first 150 and "..." |
| Connectivity.FailureEntries | pkg/toolsets/network/connectivity.go:174-180 | one (time, latency) entry per mapping among the failures, in order; non-mapping items are skipped |
| Connectivity.RecentFailuresOf | pkg/toolsets/network/connectivity.go:165-181 | a failures section iff the check records a non-empty failure list; it shows min(3, total) of the total, and its entries are the time and latency of the mappings among the first min(3, total) failures |
| Connectivity.ViewOf | pkg/toolsets/network/connectivity.go:134-181 | the check's name, source pod and target endpoint, its Reachable status; a message iff the check is failing with a non-empty Reachable message, shortened; recent failures exactly when the check is failing |
| Connectivity.CheckItems | pkg/toolsets/network/connectivity.go:48-70 | a missing data file is reported as no data |
| Connectivity.NetworkConnectivityCheck | pkg/toolsets/network/connectivity.go:40-192 | the data error, or the name-sorted checks with total, failing and degraded counts and one view per check kept by the filter |
| NetworkInfo.ReadNetworkFile | pkg/toolsets/network/info.go:47-58 | missing is no data; success iff the file is readable, giving its text |
| NetworkInfo.ScaleLinesMeaning | pkg/toolsets/network/info.go:64-71 | a line is shown iff it is a line of the file that is non-empty once trimmed of Unicode white space |
| NetworkInfo.NetworkScaleGet | pkg/toolsets/network/info.go:40-74 | the read error, or the lines trimmed of Unicode white space, non-empty ones only, in order |
| NetworkInfo.NonEmptyLines | pkg/toolsets/network/info.go:64-71 | the loop yields the lines trimmed of Unicode white space, non-empty ones only, in order |
| NetworkInfo.SampleOf | pkg/toolsets/network/info.go:137-159 | a line is a sample iff it has at least four fields separated by Unicode white space; pod, container, CPU and memory are its first four fields, and CPU and memory are parsed with their "m" and "Mi" suffixes |
| NetworkInfo.Quantity | pkg/toolsets/network/info.go:149-159 | with one trailing unit dropped, a quantity that parses as an int64 gives that number and any other counts as 0 |
| NetworkInfo.QuantityRoundTrip | pkg/toolsets/network/info.go:149-159 | an int64 written in decimal and followed by its unit reads back as itself |
| NetworkInfo.ContainerNamesMeaning | pkg/toolsets/network/info.go:140-147 | a container is recorded for a pod iff some sample names both |
| NetworkInfo.TotalsKeys | pkg/toolsets/network/info.go:137-147 | a pod is in the summary iff some sample names it |
| NetworkInfo.TotalsContainers | pkg/toolsets/network/info.go:140-147 | a pod's containers are exactly those its samples name |
| NetworkInfo.TotalsCpu | pkg/toolsets/network/info.go:149-153 | a pod's CPU total is the int64-wrapped sum of its samples' millicores |
| NetworkInfo.TotalsMemory | pkg/toolsets/network/info.go:155-159 | a pod's memory total is the int64-wrapped sum of its samples' MiB |
| NetworkInfo.SampleLinesAgree | pkg/toolsets/network/info.go:126-135 | each kept line parses to the corresponding sample |
| NetworkInfo.ScanTopPods | pkg/toolsets/network/info.go:116-160 | the scanner loop skips the header and builds the per-pod totals of the remaining lines |
| NetworkInfo.AddQuantity | pkg/toolsets/network/info.go:149-159 | one quantity is added with int64 wrap-around |
| NetworkInfo.AddSample | pkg/toolsets/network/info.go:137-159 | one sample updates only its pod: the container usage and both totals |
| NetworkInfo.TruncatePodName | pkg/toolsets/network/info.go:206-211 | a name within maxLen is unchanged, otherwise cut to maxLen ending in "..." |
| NetworkInfo.SummaryRowOf | pkg/toolsets/network/info.go:175-181 | the summary row counts the pod's containers |
| NetworkInfo.NetworkOVNResources | pkg/toolsets/network/info.go:76-184 | the read error, or the per-pod report of the file's scanned lines |
| Etcd.EndpointMark | pkg/toolsets/diagnostics/etcd.go:64-70 | an endpoint gets ✓ iff its health is "healthy", else ✗ |
| Etcd.LineOf | pkg/toolsets/diagnostics/etcd.go:64-70 | the line's mark is ✓ iff the endpoint is healthy |
| Etcd.LinesOf | pkg/toolsets/diagnostics/etcd.go:63-70 | the loop formats one line per endpoint, in order |
| Etcd.EtcdHealth | pkg/toolsets/diagnostics/etcd.go:48-82 | the provider's error, or one line per endpoint with its address and a ✓ iff healthy, overall health and alarms |
| EtcdCounts.TotalIndependentOfOrder | pkg/toolsets/diagnostics/etcd.go:98-103 | the total does not depend on the map's iteration order |
| EtcdCounts.CountSumPermutation | pkg/toolsets/diagnostics/etcd.go:98-103 | permuting the entries does not change their sum |
| EtcdCounts.EntriesOfPermutation | pkg/toolsets/diagnostics/etcd.go:98-103 | any two enumerations of the counts are permutations of each other |
| EtcdCounts.CollectEntries | pkg/toolsets/diagnostics/etcd.go:98-103 | one entry per resource type, with the int64-wrapped total of all counts |
| EtcdCounts.EntryOrderStrict | pkg/toolsets/diagnostics/etcd.go:106-114 | both sort orders are strict weak orders, as `sort.Slice` requires |
| EtcdCounts.SortedByCountDescending | pkg/toolsets/diagnostics/etcd.go:106-110 | sorting by count puts counts in non-increasing order |
| EtcdCounts.SortedByResourceAscending | pkg/toolsets/diagnostics/etcd.go:110-113 | sorting by resource puts names in strictly ascending order |
| EtcdCounts.DisplayedCount | pkg/toolsets/diagnostics/etcd.go:150-153 | the displayed total is the int64-wrapped sum of the shown entries |
| EtcdCounts.EtcdObjectCount | pkg/toolsets/diagnostics/etcd.go:84-161 | the total over every type before the cut, the number of types, the entries sorted by count (descending) or by name and cut to top, and a displayed total iff 0 < top < types |
| Seqs.SortBy | pkg/toolsets/cluster/nodes.go:69-71 | the result is a permutation of the input, sorted by the comparator |
| Seqs.Limit | pkg/mustgather/provider.go:108-110 | a prefix of length limit when 0 < limit < length, else everything |
| Seqs.SlideWindow | pkg/mustgather/logs.go:243-252 | the window loop keeps the last n lines |
| Int64.Accumulate | pkg/toolsets/monitoring/prometheus.go:158-161 | the int64 accumulator equals the wrapped mathematical sum |
| Text.TrimSpacePadded | pkg/mustgather/loader.go:111 | `strings.TrimSpace` removes exactly the surrounding white space, including NO-BREAK SPACE and the other Unicode spaces |
| Text.LexOrderStrict | pkg/toolsets/cluster/nodes.go:299 | string `<`, which `sort.Strings` uses, is a strict weak order |
| Text.SplitFirst | pkg/mustgather/provider.go:267-273 | two parts iff the separator occurs, split at its first occurrence |
| Text.JoinSplit | pkg/mustgather/logs.go:221-226 | joining the split parts restores the content |
| Text.ParseIntToString | pkg/toolsets/network/info.go:151 | every int64 printed in decimal parses back to itself |
| Unstructured.GroupVersionRoundTrip | pkg/mustgather/provider.go:114 | the "group/version" string of a kind parses back to its group and version |

## Left out

- The MCP protocol layer, start-up, tool registration and tool schemas are not part of this model. Handlers return structured reports instead of formatted text, so all `fmt.Sprintf` layout, tables and headings are left out.
- The file system is a `FileTree` value: `os.Stat`, `os.ReadDir`, `os.ReadFile` and `filepath.Walk` become lookups in it. Paths are sequences of components, so `filepath.Join` cleaning ("..", duplicate separators) is not modelled.
- The YAML and JSON decoders are oracles, and so is RFC 3339 time parsing (section 5.6 of RFC 3339). Each file carries its decoding verdict, or the decoder is a function parameter.
- The apimachinery helpers used by the index (`ParseGroupVersion`, `GetLabels`, `NestedString`, `NestedSlice`) are modelled after that library's behaviour. The library is not part of this model.
- `DeepCopy` is left out: records are values, and `Get`, `List` and `FindByLabel` return the stored record. In the source the copy goes through apimachinery's `DeepCopyJSONValue`, which panics on the Go `int` values that gopkg.in/yaml.v3 produces for integers (pkg/mustgather/loader.go:272-273 notes this). So for a record with an integer field the source panics where the model returns the record.
- Go map iteration order is unspecified. Results that range over a map are stated as "each value once, in some order", as sets or as multisets, never as sequences. This covers `List`, `FindByLabel`, `ListGVKs`, the namespace roster and the etcd entries.
- `sort.Slice` is unstable. The model sorts with one insertion sort. Contracts state only "a permutation of the input, sorted by the comparator". Every `sort.Slice` outcome satisfies that when the comparator is a strict weak order, and each comparator the model sorts with is proved one (the `...OrderStrict` lemmas, `Text.LexOrderStrict` and `Alerts.AlertOrderWeak`). The alerts comparator as written is not one; see Findings.
- Floating point is left out: `formatDuration`, the `%.1f` quotient of `formatBytes`, the etcd percentage and the `%.0f` intervals. `MonitoringHelpers.FormatBytes` returns the byte count, divisor and unit letter instead of the formatted string.
- Api.GetInt: a `float64` argument is modelled as the integer `int(v)` it converts to. Truncation of fractions and out-of-range floats are not modelled.
- Strings are sequences of characters, while Go's `len` and slicing count bytes. Lengths in `Truncate`, `TruncatePodName` and the 150-character message cut agree with the source only on single-byte text.
- Text.IsSpace: texts are sequences of characters, so the model does not cover `strings.TrimSpace` and `strings.Fields` on bytes that are not valid UTF-8.
- Text.ToLower folds ASCII letters only, while Go's `strings.ToLower` and `strings.EqualFold` fold all of Unicode. Case-insensitive filters, symbol lookups and the matching of JSON keys to struct fields are therefore modelled for ASCII text.
- Gzip decompression (`readGzipFile`) is left out. `Logs.TailWindow` takes the decompressed text, and the scanner's 64 KiB token limit is not modelled.
- `GetNodeDiagnostics` (pkg/mustgather/logs.go:94-157) only reads files into struct fields, and `alertManagerStatus` (pkg/toolsets/monitoring/alerts.go:80-124) only renders decoded fields. Neither is modelled.
- `GetETCDObjectCount` (pkg/mustgather/provider.go:231-260) reads and `Sscanf`-parses the count file. That step is not modelled: `EtcdCounts.EtcdObjectCount` takes the resulting int64 map as its input.
- The etcd header's dash loop (pkg/toolsets/diagnostics/etcd.go:137-142) is a display artefact and is left out.
- The copies of `findContainerDir` in pkg/toolsets/monitoring/helpers.go:15-32 and pkg/toolsets/network/info.go:188-204 are identical to the loader's. All of them are modelled once as `Loader.FindContainerDir` and `Loader.ContainerDir`.
- Nodes.Truncate, NetworkInfo.TruncatePodName: require `|s| <= maxLen || maxLen >= 3`, and MonitoringHelpers.Truncate requires `maxLen >= 0`. In each case the Go slice expression panics outside that range.
- Logs.TailLines: requires `n >= 0`, because a negative `n` makes the Go slice expression panic. `GetPodLog` only calls it with a positive `n`.
- Provider.DecodeEndpoints: states the shape of the result (one endpoint per array element, one for an object, the format error otherwise). The field-by-field decoding of each endpoint is stated separately by `Provider.DecodeEndpointFields`.
- Provider.FieldValue: when an object has several keys that equal the field name ignoring case, encoding/json keeps the value of the last one in document order. Decoded objects in this model hold no key order, so it takes the exact spelling when present, else the least such key.
- Alerts.PrometheusRules: a listed rule whose "type" is "" makes `rule.Type[:1]` (pkg/toolsets/monitoring/alerts.go:230) panic. The model returns the report, because that type letter belongs to the formatted text it leaves out.
- Connectivity.CheckItems: states only the missing-file case in its contract. The read, parse and "items" errors are written in its body and carried through `NetworkConnectivityCheck`.

## Findings

| source | as written | input that shows it | evidently intended | confidence | as-written member | corrected member |
|---|---|---|---|---|---|---|
| pkg/toolsets/monitoring/alerts.go:334-346 | within one severity, two alerts in different states compare by "is the first one firing". Two non-firing alerts in different states are therefore unordered whatever their rule names, so the comparator is not a strict weak order and `sort.Slice` may return an order that is not sorted by rule name | three critical alerts: pending "z", inactive "m", pending "a". Pending "a" sorts before pending "z", yet "m" is unordered with both, so incomparability is not transitive | firing alerts first, then all other states together, each part ordered by rule name | low; not executed (rule files normally list only firing and pending alerts) | Alerts.AlertOrderNotWeak | Alerts.AlertOrderWeak |
