/**
 * The query facade over a loaded archive: resource lookup and listing with
 * label, field and limit options, the namespace roster, and the ETCD
 * endpoint health report read from "etcd_info/endpoint_health.json".
 */
module Provider {
  import opened Wrappers
  import opened Text
  import opened Seqs
  import opened Unstructured
  import opened FileTree
  import opened Index
  import opened GoMaps
  import opened Loader

  datatype ListOptions = ListOptions(labelSelector: string, fieldSelector: string, limit: int)

  /** An `UnstructuredList`: its "apiVersion" and "kind" fields and its items. */
  datatype UnstructuredList = UnstructuredList(apiVersion: string, kind: string, items: seq<Object>)

  datatype ProviderError =
    | InvalidFieldSelector(selector: string)
    | LoadFailed(cause: LoadError)
    | HealthReadFailed(readError: FsError)
    | HealthParseFailed
    | UnexpectedHealthFormat

  // ---------------------------------------------------------------- filters

  /** The GVK and namespace test applied to label-selected records. */
  function InScope(gvk: GVK, namespace: string): Object -> bool {
    o => GroupVersionKind(o) == gvk && (namespace == "" || GetNamespace(o) == namespace)
  }

  /** The field test: the dot-separated path reaches a string equal to `value`. */
  function FieldEquals(path: seq<string>, value: string): Object -> bool {
    o => NestedString(o, path) == Some(value)
  }

  /** The records the field selector keeps; every record when there is no selector or it has no "=". */
  function Selected(rs: seq<Object>, fieldSelector: string): seq<Object> {
    var parts := SplitFirst(fieldSelector, '=');
    if fieldSelector == "" || |parts| != 2 then rs
    else Filter(rs, FieldEquals(Split(parts[0], '.'), parts[1]))
  }

  /** The GVK and namespace loop of `ListResources`. */
  method KeepInScope(resources: seq<Object>, gvk: GVK, namespace: string) returns (filtered: seq<Object>)
    ensures filtered == Filter(resources, InScope(gvk, namespace))
  {
    filtered := [];
    for i := 0 to |resources|
      invariant filtered == Filter(resources[..i], InScope(gvk, namespace))
    {
      assert resources[..i + 1][..i] == resources[..i];
      var resource := resources[i];
      if GroupVersionKind(resource) != gvk {
        continue;
      }
      if namespace != "" && GetNamespace(resource) != namespace {
        continue;
      }
      filtered := filtered + [resource];
    }
    assert resources[..|resources|] == resources;
  }

  /**
   * `applyFieldSelector`: split once on the first "=" (so the value may hold
   * "="), split the field on ".", and keep, in order, the records whose
   * field is a string equal to the value.
   */
  method ApplyFieldSelector(resources: seq<Object>, fieldSelector: string) returns (r: Result<seq<Object>, ProviderError>)
    ensures r.Err? <==> '=' !in fieldSelector
    ensures r.Err? ==> r.error == InvalidFieldSelector(fieldSelector)
    ensures r.Ok? ==> r.value == Selected(resources, fieldSelector)
    ensures r.Ok? ==>
              var parts := SplitFirst(fieldSelector, '=');
              forall o :: o in r.value <==> o in resources && NestedString(o, Split(parts[0], '.')) == Some(parts[1])
  {
    var parts := SplitFirst(fieldSelector, '=');
    if |parts| != 2 {
      return Err(InvalidFieldSelector(fieldSelector));
    }
    var field := parts[0];
    var value := parts[1];
    var fieldPath := Split(field, '.');
    var filtered: seq<Object> := [];
    for i := 0 to |resources|
      invariant filtered == Filter(resources[..i], FieldEquals(fieldPath, value))
    {
      assert resources[..i + 1][..i] == resources[..i];
      var fieldValue := NestedString(resources[i], fieldPath);
      if fieldValue.None? {
        continue;
      }
      if fieldValue.value == value {
        filtered := filtered + [resources[i]];
      }
    }
    assert resources[..|resources|] == resources;
    return Ok(filtered);
  }

  /** `convertToUnstructuredSlice`: copies each record by value, in order. */
  method ConvertToUnstructuredSlice(resources: seq<Object>) returns (result: seq<Object>)
    ensures result == resources
  {
    var copies := new Object[|resources|];
    for i := 0 to |resources|
      invariant forall j :: 0 <= j < i ==> copies[j] == resources[j]
    {
      copies[i] := resources[i];
    }
    result := copies[..];
  }

  /** Every record a bucket of a well-keyed kind view holds has that bucket's kind. */
  lemma KindBucketRecords(v: KindView, gvk: GVK, rs: seq<Object>)
    requires KindsKeyed(v) && Enumerates(rs, BucketOf(v, gvk))
    ensures forall o :: o in rs ==> GroupVersionKind(o) == gvk
  {
    forall o | o in rs ensures GroupVersionKind(o) == gvk {
      var b := BucketOf(v, gvk);
      var k :| k in b && b[k] == o;
    }
  }

  /** Every record a bucket of a well-keyed namespace view holds has that bucket's kind and namespace. */
  lemma NamespaceBucketRecords(v: NamespaceView, namespace: string, gvk: GVK, rs: seq<Object>)
    requires NamespacesKeyed(v) && Enumerates(rs, NsBucket(v, namespace, gvk))
    ensures forall o :: o in rs ==> GroupVersionKind(o) == gvk && GetNamespace(o) == namespace
  {
    forall o | o in rs ensures GroupVersionKind(o) == gvk && GetNamespace(o) == namespace {
      var b := NsBucket(v, namespace, gvk);
      var k :| k in b && b[k] == o;
    }
  }

  // ---------------------------------------------------------------- ETCD health

  /** An endpoint of "endpoint_health.json" as decoded: its address and its health value of any shape. */
  datatype HealthEndpoint = HealthEndpoint(endpoint: string, health: Value)

  datatype ETCDEndpoint = ETCDEndpoint(address: string, health: string)

  datatype ETCDHealth = ETCDHealth(healthy: bool, endpoints: seq<ETCDEndpoint>, alarms: seq<string>)

  /** A health value that reads as healthy at the top level: true, "true" or "healthy". */
  predicate Affirmative(v: Value) {
    v == VBool(true) || v == VStr("true") || v == VStr("healthy")
  }

  /** The health switch of `GetETCDHealth`: a bool, a string, or an object with a "health" field one level down. */
  function IsHealthy(h: Value): (b: bool)
    ensures b <==> Affirmative(h) || (h.VMap? && "health" in h.fields && Affirmative(h.fields["health"]))
  {
    match h
    case VBool(ok) => ok
    case VStr(s) => s == "true" || s == "healthy"
    case VMap(m) =>
      if "health" in m then
        (match m["health"]
         case VBool(ok) => ok
         case VStr(s) => s == "true" || s == "healthy"
         case _ => false)
      else false
    case _ => false
  }

  /** Nesting is followed one level only. */
  lemma IsHealthyOneLevel(inner: Value)
    ensures !IsHealthy(VMap(map["health" := VMap(map["health" := inner])]))
  {
  }

  /** `k` is the least key of `m` that equals `name` ignoring case. */
  predicate LeastFoldKey(m: map<string, Value>, name: string, k: string) {
    k in m && EqualFold(k, name) &&
    forall x :: x in m && EqualFold(x, name) && x != k ==> LexLess(k, x)
  }

  lemma LeastFoldKeyExists(m: map<string, Value>, name: string)
    requires exists k :: k in m && EqualFold(k, name)
    ensures exists k :: LeastFoldKey(m, name, k)
  {
    var w :| w in m && EqualFold(w, name);
    var keys := set x | x in m && EqualFold(x, name);
    assert w in keys;
    var k := LeastString(keys);
    assert LeastFoldKey(m, name, k);
  }

  /**
   * The value that encoding/json decodes into the struct field tagged `name`:
   * the key spelled exactly so, else a key equal to it ignoring case (the least
   * one, when there are several), else nothing.
   */
  function FieldValue(m: map<string, Value>, name: string): (v: Option<Value>)
    ensures v.None? <==> forall k :: k in m ==> !EqualFold(k, name)
    ensures name in m ==> v == Some(m[name])
    ensures v.Some? ==> exists k :: k in m && EqualFold(k, name) && v.value == m[k]
  {
    if name in m then Some(m[name])
    else if exists k :: k in m && EqualFold(k, name) then
      LeastFoldKeyExists(m, name);
      LexOrderStrict();
      var k :| LeastFoldKey(m, name, k);
      Some(m[k])
    else None
  }

  /** Decoding one element into the endpoint struct: null is the zero struct; the address must be a string. */
  function DecodeEndpoint(v: Value): (r: Option<HealthEndpoint>)
    ensures r.Some? ==> v.VNull? || v.VMap?
  {
    match v
    case VNull => Some(HealthEndpoint("", VNull))
    case VMap(m) =>
      var h := FieldValue(m, "health");
      var health := if h.Some? then h.value else VNull;
      var e := FieldValue(m, "endpoint");
      if e.None? || e.value.VNull? then Some(HealthEndpoint("", health))
      else if e.value.VStr? then Some(HealthEndpoint(e.value.str, health))
      else None
    case _ => None
  }

  /**
   * An object decodes iff its address field is absent, null or a string; the
   * address is that string or "", and the health is the matched value or null.
   */
  lemma DecodeEndpointFields(m: map<string, Value>)
    ensures var e := FieldValue(m, "endpoint");
            var h := FieldValue(m, "health");
            var r := DecodeEndpoint(VMap(m));
            (r.Some? <==> e.None? || e.value.VNull? || e.value.VStr?) &&
            (r.Some? ==> r.value.endpoint == (if e.Some? && e.value.VStr? then e.value.str else "")) &&
            (r.Some? ==> r.value.health == (if h.Some? then h.value else VNull))
  {
  }

  /** Keys match their struct field in any case: a lone "Endpoint" key gives the address. */
  lemma DecodeEndpointIgnoresCase(m: map<string, Value>, k: string, address: string)
    requires k in m && EqualFold(k, "endpoint") && m[k] == VStr(address)
    requires forall x :: x in m && EqualFold(x, "endpoint") ==> x == k
    ensures DecodeEndpoint(VMap(m)).Some? && DecodeEndpoint(VMap(m)).value.endpoint == address
  {
    var e := FieldValue(m, "endpoint");
    assert e.Some?;
    var k' :| k' in m && EqualFold(k', "endpoint") && e.value == m[k'];
  }

  function DecodeAll(items: seq<Value>): (r: Option<seq<HealthEndpoint>>)
    ensures r.Some? <==> forall i :: 0 <= i < |items| ==> DecodeEndpoint(items[i]).Some?
    ensures r.Some? ==> |r.value| == |items| &&
                        forall i :: 0 <= i < |items| ==> DecodeEndpoint(items[i]) == Some(r.value[i])
  {
    if |items| == 0 then Some([])
    else
      var init := DecodeAll(items[..|items| - 1]);
      var last := DecodeEndpoint(items[|items| - 1]);
      assert forall i :: 0 <= i < |items| - 1 ==> items[..|items| - 1][i] == items[i];
      if init.None? || last.None? then None else Some(init.value + [last.value])
  }

  /** The endpoint list of the decoded file: an array of endpoints, or one object standing for one endpoint. */
  function DecodeEndpoints(raw: Value): (r: Result<seq<HealthEndpoint>, ProviderError>)
    ensures r.Err? ==> r.error == HealthParseFailed || r.error == UnexpectedHealthFormat
    ensures r.Err? && r.error == UnexpectedHealthFormat <==> !raw.VList? && !raw.VMap?
    ensures raw.VMap? && r.Ok? ==> |r.value| == 1
    ensures raw.VList? && r.Ok? ==> |r.value| == |raw.items|
  {
    match raw
    case VList(items) =>
      var eps := DecodeAll(items);
      if eps.None? then Err(HealthParseFailed) else Ok(eps.value)
    case VMap(_) =>
      var ep := DecodeEndpoint(raw);
      if ep.None? then Err(HealthParseFailed) else Ok([ep.value])
    case _ => Err(UnexpectedHealthFormat)
  }

  /** The endpoint loop: one verdict per endpoint, in order; overall health is their conjunction. */
  method AssessEndpoints(eps: seq<HealthEndpoint>) returns (healthy: bool, endpoints: seq<ETCDEndpoint>)
    ensures |endpoints| == |eps|
    ensures forall i :: 0 <= i < |eps| ==>
              endpoints[i].address == eps[i].endpoint &&
              endpoints[i].health == (if IsHealthy(eps[i].health) then "healthy" else "unhealthy")
    ensures healthy <==> forall i :: 0 <= i < |eps| ==> IsHealthy(eps[i].health)
  {
    healthy := true;
    var out := new ETCDEndpoint[|eps|](_ => ETCDEndpoint("", ""));
    for i := 0 to |eps|
      invariant forall j :: 0 <= j < i ==>
                  out[j].address == eps[j].endpoint &&
                  out[j].health == (if IsHealthy(eps[j].health) then "healthy" else "unhealthy")
      invariant healthy <==> forall j :: 0 <= j < i ==> IsHealthy(eps[j].health)
    {
      var healthStatus := "healthy";
      var isHealthy := IsHealthy(eps[i].health);
      if !isHealthy {
        healthStatus := "unhealthy";
        healthy := false;
      }
      out[i] := ETCDEndpoint(eps[i].endpoint, healthStatus);
    }
    endpoints := out[..];
  }

  /** One element of "alarm_list.json": null or an object whose "alarm" is a string or absent. */
  /** Decoding one element into the alarm struct: null is the zero struct; the alarm name, matched ignoring case, must be a string. */
  function DecodeAlarm(v: Value): (r: Option<string>)
    ensures v.VNull? ==> r == Some("")
    ensures v.VMap? ==>
              var a := FieldValue(v.fields, "alarm");
              (r.Some? <==> a.None? || a.value.VNull? || a.value.VStr?) &&
              (r.Some? ==> r.value == (if a.Some? && a.value.VStr? then a.value.str else ""))
    ensures !v.VNull? && !v.VMap? ==> r.None?
  {
    match v
    case VNull => Some("")
    case VMap(m) =>
      var a := FieldValue(m, "alarm");
      if a.None? || a.value.VNull? then Some("")
      else if a.value.VStr? then Some(a.value.str)
      else None
    case _ => None
  }

  /** An array decodes iff every element does, giving one alarm name per element. */
  function DecodeAlarms(items: seq<Value>): (r: Option<seq<string>>)
    ensures r.Some? <==> forall i :: 0 <= i < |items| ==> DecodeAlarm(items[i]).Some?
    ensures r.Some? ==> |r.value| == |items| &&
                        forall i :: 0 <= i < |items| ==> Some(r.value[i]) == DecodeAlarm(items[i])
  {
    if |items| == 0 then Some([])
    else
      var init := DecodeAlarms(items[..|items| - 1]);
      var last := DecodeAlarm(items[|items| - 1]);
      assert forall i :: 0 <= i < |items| - 1 ==> items[..|items| - 1][i] == items[i];
      if init.None? || last.None? then None else Some(init.value + [last.value])
  }

  /** Keys match their struct field in any case: a lone "Alarm" key gives the alarm name. */
  lemma DecodeAlarmIgnoresCase(m: map<string, Value>, k: string, name: string)
    requires k in m && EqualFold(k, "alarm") && m[k] == VStr(name)
    requires forall x :: x in m && EqualFold(x, "alarm") ==> x == k
    ensures DecodeAlarm(VMap(m)) == Some(name)
  {
    var a := FieldValue(m, "alarm");
    assert a.Some?;
    var k' :| k' in m && EqualFold(k', "alarm") && a.value == m[k'];
  }

  /** The alarms of "etcd_info/alarm_list.json"; none when it is missing or fails to decode. */
  function AlarmsOf(root: Node, dir: Path): seq<string> {
    match ReadFile(root, dir + ["etcd_info", "alarm_list.json"])
    case Ok(Readable(_, Doc(VList(items)))) =>
      var names := DecodeAlarms(items);
      if names.Some? then names.value else []
    case _ => []
  }

  // ---------------------------------------------------------------- the provider

  class Provider {
    const root: Node
    const path: Path
    const index: ResourceIndex
    const metadata: Metadata

    ghost predicate Valid()
      reads this, index
    {
      index.Valid()
    }

    /** The provider over a loaded archive: the index is built from the loaded records and roster. */
    constructor (root: Node, path: Path, loaded: LoadResult)
      ensures Valid()
      ensures this.root == root && this.path == path && metadata == loaded.metadata
      ensures fresh(index)
      ensures index.byGVK == BuildKinds(loaded.resources)
      ensures index.byNamespace == BuildNamespaces(loaded.resources)
      ensures index.byLabel == BuildLabels(loaded.resources)
      ensures index.namespaces == loaded.namespaces
    {
      var idx := BuildIndex(loaded.resources, loaded.namespaces);
      this.root := root;
      this.path := path;
      this.index := idx;
      this.metadata := loaded.metadata;
    }

    /** `GetResource`: the index lookup. */
    method GetResource(gvk: GVK, namespace: string, name: string) returns (r: Result<Object, IndexError>)
      ensures r.Ok? <==> gvk in index.byGVK && KeyFor(namespace, name) in index.byGVK[gvk]
      ensures r.Ok? ==> r.value == index.byGVK[gvk][KeyFor(namespace, name)]
      ensures gvk !in index.byGVK <==> r == Err(NoResourcesForKind(gvk))
      ensures r == Err(ResourceNotFound(gvk, namespace, name)) <==>
                gvk in index.byGVK && KeyFor(namespace, name) !in index.byGVK[gvk]
    {
      r := index.Get(gvk, namespace, name);
    }

    /** `ListNamespaces`: the roster of the loaded archive. */
    method ListNamespaces() returns (ns: seq<string>)
      ensures ns == index.namespaces
    {
      ns := index.ListNamespaces();
    }

    /** The first step of `ListResources`: the label-selected records of the kind and namespace, or the index listing. */
    method Candidates(gvk: GVK, namespace: string, labelSelector: string)
      returns (resources: seq<Object>, ghost candidates: seq<Object>)
      requires Valid()
      ensures labelSelector != "" ==> Enumerates(candidates, Matching(index.byLabel, Terms(labelSelector)))
      ensures labelSelector == "" && namespace != "" ==> Enumerates(candidates, NsBucket(index.byNamespace, namespace, gvk))
      ensures labelSelector == "" && namespace == "" ==> Enumerates(candidates, BucketOf(index.byGVK, gvk))
      ensures resources == if labelSelector != "" then Filter(candidates, InScope(gvk, namespace)) else candidates
      ensures forall o :: o in resources ==> GroupVersionKind(o) == gvk && (namespace != "" ==> GetNamespace(o) == namespace)
    {
      if labelSelector != "" {
        resources := index.FindByLabel(labelSelector);
        candidates := resources;
        resources := KeepInScope(resources, gvk, namespace);
      } else {
        resources := index.List(gvk, namespace);
        candidates := resources;
        if namespace != "" {
          NamespaceBucketRecords(index.byNamespace, namespace, gvk, resources);
        } else {
          KindBucketRecords(index.byGVK, gvk, resources);
        }
      }
    }

    /**
     * `ListResources`: the label-selected records of the requested kind and
     * namespace, or the index listing for them; then the field selector and
     * the limit. `candidates` is what the index handed back.
     */
    method ListResources(gvk: GVK, namespace: string, opts: ListOptions)
      returns (r: Result<UnstructuredList, ProviderError>, ghost candidates: seq<Object>)
      requires Valid()
      ensures opts.labelSelector != "" ==> Enumerates(candidates, Matching(index.byLabel, Terms(opts.labelSelector)))
      ensures opts.labelSelector == "" && namespace != "" ==>
                Enumerates(candidates, NsBucket(index.byNamespace, namespace, gvk))
      ensures opts.labelSelector == "" && namespace == "" ==> Enumerates(candidates, BucketOf(index.byGVK, gvk))
      ensures r.Err? <==> opts.fieldSelector != "" && '=' !in opts.fieldSelector
      ensures r.Ok? ==>
                var scoped := if opts.labelSelector != "" then Filter(candidates, InScope(gvk, namespace)) else candidates;
                r.value.items == Limit(Selected(scoped, opts.fieldSelector), opts.limit) &&
                r.value.apiVersion == GroupVersionString(gvk.group, gvk.version) &&
                r.value.kind == gvk.kind + "List"
      ensures r.Ok? ==> forall o :: o in r.value.items ==>
                GroupVersionKind(o) == gvk && (namespace != "" ==> GetNamespace(o) == namespace)
    {
      var resources;
      resources, candidates := Candidates(gvk, namespace, opts.labelSelector);
      assert forall o :: o in resources ==> GroupVersionKind(o) == gvk && (namespace != "" ==> GetNamespace(o) == namespace);
      r := ShapeList(resources, gvk, opts);
      assert r.Ok? ==> forall o :: o in r.value.items ==> o in resources;
    }

    /** `ListResources` of a kind with no namespace and no options: every indexed record of that kind. */
    method ListKind(gvk: GVK) returns (items: seq<Object>, ghost listed: seq<Object>)
      requires Valid()
      ensures items == listed
      ensures Enumerates(listed, BucketOf(index.byGVK, gvk))
    {
      var list;
      list, listed := ListResources(gvk, "", ListOptions("", "", 0));
      if list.Err? {
        assert false;
      }
      items := list.value.items;
    }

    /**
     * `GetETCDHealth`: read and decode "etcd_info/endpoint_health.json" in the
     * container directory, judge every endpoint, and add the alarms.
     */
    method GetETCDHealth() returns (r: Result<ETCDHealth, ProviderError>)
      ensures var file := ReadFile(root, ContainerDir(root, path) + ["etcd_info", "endpoint_health.json"]);
              (file.Err? ==> r == Err(HealthReadFailed(file.error))) &&
              (file.Ok? && file.value.decoded.Malformed? ==> r == Err(HealthParseFailed)) &&
              (file.Ok? && file.value.decoded.Doc? ==>
                 var eps := DecodeEndpoints(file.value.decoded.value);
                 (eps.Err? ==> r == Err(eps.error)) &&
                 (eps.Ok? ==>
                    r.Ok? && |r.value.endpoints| == |eps.value| &&
                    (forall i :: 0 <= i < |eps.value| ==>
                       r.value.endpoints[i] ==
                       ETCDEndpoint(eps.value[i].endpoint, if IsHealthy(eps.value[i].health) then "healthy" else "unhealthy")) &&
                    (r.value.healthy <==> forall i :: 0 <= i < |eps.value| ==> IsHealthy(eps.value[i].health)) &&
                    r.value.alarms == AlarmsOf(root, ContainerDir(root, path))))
    {
      var found := FindContainerDir(root, path);
      var containerDir := if found.Ok? then found.value else path;
      assert containerDir == ContainerDir(root, path);
      var healthFile := ReadFile(root, containerDir + ["etcd_info", "endpoint_health.json"]);
      if healthFile.Err? {
        return Err(HealthReadFailed(healthFile.error));
      }
      if healthFile.value.decoded.Malformed? {
        return Err(HealthParseFailed);
      }
      var decoded := DecodeEndpoints(healthFile.value.decoded.value);
      if decoded.Err? {
        return Err(decoded.error);
      }
      var healthy, endpoints := AssessEndpoints(decoded.value);
      r := Ok(ETCDHealth(healthy, endpoints, AlarmsOf(root, containerDir)));
    }
  }

  /** The rest of `ListResources`: the field selector, the limit and the list header. */
  method ShapeList(resources: seq<Object>, gvk: GVK, opts: ListOptions) returns (r: Result<UnstructuredList, ProviderError>)
    ensures r.Err? <==> opts.fieldSelector != "" && '=' !in opts.fieldSelector
    ensures r.Ok? ==>
              r.value.items == Limit(Selected(resources, opts.fieldSelector), opts.limit) &&
              r.value.apiVersion == GroupVersionString(gvk.group, gvk.version) &&
              r.value.kind == gvk.kind + "List"
    ensures r.Ok? ==> forall o :: o in r.value.items ==> o in resources
  {
    var selected := resources;
    if opts.fieldSelector != "" {
      var filtered := ApplyFieldSelector(resources, opts.fieldSelector);
      if filtered.Err? {
        return Err(filtered.error);
      }
      selected := filtered.value;
    }
    if opts.limit > 0 && |selected| > opts.limit {
      selected := selected[..opts.limit];
    }
    var items := ConvertToUnstructuredSlice(selected);
    r := Ok(UnstructuredList(GroupVersionString(gvk.group, gvk.version), gvk.kind + "List", items));
  }

  /** `NewProvider`: load the archive at `mg` and index it. */
  method NewProvider(root: Node, mg: Path, parse: string -> Option<int>) returns (r: Result<Provider, ProviderError>)
    ensures Lookup(root, mg).None? ==> r == Err(LoadFailed(PathNotFound(mg)))
    ensures Lookup(root, mg).Some? ==>
              var dir := ContainerDir(root, mg);
              var cluster := ClusterPart(root, dir);
              var namespaced := NamespacedPart(root, dir);
              (cluster.Err? ==> r == Err(LoadFailed(ClusterScopedFailed(cluster.error)))) &&
              (cluster.Ok? && namespaced.Err? ==> r == Err(LoadFailed(NamespacedFailed(namespaced.error)))) &&
              (cluster.Ok? && namespaced.Ok? ==> r.Ok?)
    ensures r.Ok? ==> fresh(r.value) && fresh(r.value.index) && r.value.Valid() &&
                      r.value.root == root && r.value.path == mg
    ensures r.Ok? ==>
              var dir := ContainerDir(root, mg);
              var resources := ClusterPart(root, dir).value + NamespacedPart(root, dir).value.0;
              var idx := r.value.index;
              idx.byGVK == BuildKinds(resources) &&
              idx.byNamespace == BuildNamespaces(resources) &&
              idx.byLabel == BuildLabels(resources) &&
              NoDup(idx.namespaces) &&
              (forall ns :: ns in idx.namespaces <==> ns in NamespacedPart(root, dir).value.1) &&
              r.value.metadata == Metadata(mg, VersionOf(root, dir),
                                           LastStamp(TimestampLines(root, dir), "started ", parse),
                                           LastStamp(TimestampLines(root, dir), "ended ", parse),
                                           |resources|, |idx.namespaces|)
  {
    var loaded := Load(root, mg, parse);
    if loaded.Err? {
      return Err(LoadFailed(loaded.error));
    }
    var p := new Provider(root, mg, loaded.value);
    return Ok(p);
  }
}
