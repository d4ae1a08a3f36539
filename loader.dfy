/**
 * The archive loader: finds the container directory of a must-gather
 * archive, reads its version and timestamp files, and collects the
 * cluster-scoped and namespaced records from the YAML files below it.
 * Warnings are not modelled as output; a file that fails to load simply
 * contributes nothing.
 */
module Loader {
  import opened Wrappers
  import opened Text
  import opened Seqs
  import opened Unstructured
  import opened FileTree

  // ---------------------------------------------------------------- file names

  /** `isYAMLFile`: the lower-cased extension of the path's last component is ".yaml" or ".yml". */
  predicate IsYAMLFile(p: Path)
    ensures IsYAMLFile(p) ==> ToLower(Ext(Base(p))) in {".yaml", ".yml"}
  {
    var ext := ToLower(Ext(Base(p)));
    ext == ".yaml" || ext == ".yml"
  }

  lemma LowerCharDot(c: char)
    ensures LowerChar(c) == '.' <==> c == '.'
  {
  }

  lemma {:induction false} ToLowerSuffix(s: string, k: nat)
    requires k <= |s|
    ensures ToLower(s)[k..] == ToLower(s[k..])
  {
  }

  /** A YAML file is exactly one whose name ends, ignoring case, in ".yaml" or ".yml". */
  lemma {:induction false} IsYAMLFileBySuffix(p: Path)
    ensures IsYAMLFile(p) <==> (HasSuffix(ToLower(Base(p)), ".yaml") || HasSuffix(ToLower(Base(p)), ".yml"))
  {
    var name := Base(p);
    SuffixExt(name, ".yaml");
    SuffixExt(name, ".yml");
  }

  /** For a dot-led suffix with no further dot, the lower-cased extension equals it iff the lower-cased name ends in it. */
  lemma {:induction false} SuffixExt(name: string, sfx: string)
    requires |sfx| > 0 && sfx[0] == '.' && '.' !in sfx[1..]
    requires forall i :: 0 <= i < |sfx| ==> LowerChar(sfx[i]) == sfx[i]
    ensures ToLower(Ext(name)) == sfx <==> HasSuffix(ToLower(name), sfx)
  {
    var e := Ext(name);
    if ToLower(e) == sfx {
      var k := |name| - |e|;
      assert name[k..] == e;
      ToLowerSuffix(name, k);
    }
    if HasSuffix(ToLower(name), sfx) {
      var k := |name| - |sfx|;
      ToLowerSuffix(name, k);
      assert ToLower(name[k..]) == sfx;
      LowerCharDot(name[k]);
      assert name[k] == '.';
      forall j | k < j < |name| ensures name[j] != '.' {
        LowerCharDot(name[j]);
        assert ToLower(name)[j] == sfx[j - k];
        assert sfx[j - k] in sfx[1..];
      }
      assert Ext(name) == name[k..];
    }
  }

  // ---------------------------------------------------------------- one file

  datatype FileError = ReadError | DecodeError

  /** `yaml.Unmarshal` into a mapping: a null document is the empty (nil) mapping; anything but a mapping is an error. */
  function DecodeMapping(c: Content): (r: Result<Object, FileError>)
    ensures c.Unreadable? ==> r == Err(ReadError)
    ensures r.Ok? ==> c.Readable? && c.decoded.Doc?
  {
    match c
    case Unreadable => Err(ReadError)
    case Readable(_, Malformed) => Err(DecodeError)
    case Readable(_, Doc(VMap(m))) => Ok(m)
    case Readable(_, Doc(VNull)) => Ok(map[])
    case Readable(_, Doc(_)) => Err(DecodeError)
  }

  /** `loadSingleResourceFile`: no record for an empty mapping, the mapping itself otherwise. */
  function LoadSingleResourceFile(c: Content): (r: Result<Option<Object>, FileError>)
    ensures r.Err? <==> DecodeMapping(c).Err?
    ensures r.Ok? ==> (r.value.None? <==> |DecodeMapping(c).value| == 0)
    ensures r.Ok? && r.value.Some? ==> r.value.value == DecodeMapping(c).value && |r.value.value| > 0
  {
    match DecodeMapping(c)
    case Err(e) => Err(e)
    case Ok(obj) => if |obj| == 0 then Ok(None) else Ok(Some(obj))
  }

  /** A document is a list when its "kind" is a string ending in "List". */
  predicate IsListKind(obj: Object) {
    HasSuffix(GetKind(obj), "List")
  }

  /** The raw "items" entry of a list document, when it is a sequence. */
  function RawItems(obj: Object): seq<Value> {
    if "items" in obj && obj["items"].VList? then obj["items"].items else []
  }

  /** The mapping-typed elements of `items`, in order. */
  function MapItems(items: seq<Value>): (r: seq<Object>)
    ensures |r| <= |items|
    ensures forall o :: o in r <==> VMap(o) in items
  {
    if |items| == 0 then []
    else
      var rest := MapItems(items[..|items| - 1]);
      var last := items[|items| - 1];
      assert items == items[..|items| - 1] + [last];
      if last.VMap? then rest + [last.fields] else rest
  }

  lemma {:induction false} MapItemsAppend(a: seq<Value>, b: seq<Value>)
    ensures MapItems(a + b) == MapItems(a) + MapItems(b)
    decreases |b|
  {
    if |b| == 0 {
      assert a + b == a;
    } else {
      assert (a + b)[..|a + b| - 1] == a + b[..|b| - 1];
      MapItemsAppend(a, b[..|b| - 1]);
    }
  }

  /** Elements that are not mappings are skipped: removing one changes nothing. */
  lemma MapItemsSkip(a: seq<Value>, v: Value, b: seq<Value>)
    requires !v.VMap?
    ensures MapItems(a + [v] + b) == MapItems(a) + MapItems(b)
  {
    MapItemsAppend(a + [v], b);
    MapItemsAppend(a, [v]);
    assert [v][..0] == [];
  }

  /** The loop over "items" in `loadMultiResourceFile`. */
  method CollectMapItems(items: seq<Value>) returns (resources: seq<Object>)
    ensures resources == MapItems(items)
  {
    resources := [];
    for i := 0 to |items|
      invariant resources == MapItems(items[..i])
    {
      assert items[..i + 1][..i] == items[..i];
      if items[i].VMap? {
        resources := resources + [items[i].fields];
      }
    }
    assert items[..|items|] == items;
  }

  /** The records of one namespaced file: none when it fails to load. */
  function MultiRecords(c: Content): seq<Object> {
    match DecodeMapping(c)
    case Err(_) => []
    case Ok(obj) =>
      if |obj| == 0 then []
      else if IsListKind(obj) then MapItems(RawItems(obj))
      else [obj]
  }

  /** `loadMultiResourceFile`: the items of a list document, the document itself, or nothing for an empty one. */
  method LoadMultiResourceFile(c: Content) returns (r: Result<seq<Object>, FileError>)
    ensures r.Err? <==> DecodeMapping(c).Err?
    ensures r.Ok? ==> r.value == MultiRecords(c)
    ensures r.Ok? && |DecodeMapping(c).value| == 0 ==> r.value == []
    ensures r.Ok? && |DecodeMapping(c).value| > 0 && !IsListKind(DecodeMapping(c).value) ==>
              r.value == [DecodeMapping(c).value]
    ensures r.Ok? && |DecodeMapping(c).value| > 0 && IsListKind(DecodeMapping(c).value) ==>
              forall o :: o in r.value <==> VMap(o) in RawItems(DecodeMapping(c).value)
  {
    var decoded := DecodeMapping(c);
    if decoded.Err? {
      return Err(decoded.error);
    }
    var obj := decoded.value;
    if |obj| == 0 {
      return Ok([]);
    }
    if IsListKind(obj) {
      var items := CollectMapItems(RawItems(obj));
      return Ok(items);
    }
    return Ok([obj]);
  }

  // ---------------------------------------------------------------- walks

  /** `filepath.Walk` from the path `p`: a missing root is reported to the callback, which returns it. */
  function WalkFrom(root: Node, p: Path): Result<seq<Visit>, FsError> {
    match Lookup(root, p)
    case None => Err(NotExist(p))
    case Some(n) => Walk(n, p)
  }

  /** What one visited file adds in `loadClusterScopedResources`. */
  function ClusterRecordOf(v: Visit): seq<Object> {
    if !IsYAMLFile(v.path) then []
    else match LoadSingleResourceFile(v.content)
      case Ok(Some(o)) => [o]
      case _ => []
  }

  /** What one visited file adds in `loadNamespacedResources`. */
  function NamespacedRecordsOf(v: Visit): seq<Object> {
    if !IsYAMLFile(v.path) then [] else MultiRecords(v.content)
  }

  /**
   * A file that cannot be read or decoded, or holds an empty mapping, is
   * skipped with a warning and the walk goes on with the files after it.
   */
  lemma ClusterSkip(a: seq<Visit>, v: Visit, b: seq<Visit>)
    requires LoadSingleResourceFile(v.content).Err? || LoadSingleResourceFile(v.content) == Ok(None)
    ensures FlatMap(a + [v] + b, ClusterRecordOf) == FlatMap(a, ClusterRecordOf) + FlatMap(b, ClusterRecordOf)
  {
    FlatMapSkip(a, v, b, ClusterRecordOf);
  }

  lemma NamespacedSkip(a: seq<Visit>, v: Visit, b: seq<Visit>)
    requires DecodeMapping(v.content).Err?
    ensures FlatMap(a + [v] + b, NamespacedRecordsOf) == FlatMap(a, NamespacedRecordsOf) + FlatMap(b, NamespacedRecordsOf)
  {
    FlatMapSkip(a, v, b, NamespacedRecordsOf);
  }

  /** `loadClusterScopedResources`: the records of the YAML files below `dir`, in walk order. */
  method LoadClusterScopedResources(root: Node, dir: Path) returns (r: Result<seq<Object>, FsError>)
    ensures WalkFrom(root, dir).Err? ==> r == Err(WalkFrom(root, dir).error)
    ensures WalkFrom(root, dir).Ok? ==> r == Ok(FlatMap(WalkFrom(root, dir).value, ClusterRecordOf))
  {
    var walk := WalkFrom(root, dir);
    if walk.Err? {
      return Err(walk.error);
    }
    var resources := CollectCluster(walk.value);
    return Ok(resources);
  }

  /** The walk callback of `loadClusterScopedResources`: one record per non-empty YAML file. */
  method CollectCluster(visits: seq<Visit>) returns (resources: seq<Object>)
    ensures resources == FlatMap(visits, ClusterRecordOf)
  {
    resources := [];
    for i := 0 to |visits|
      invariant resources == FlatMap(visits[..i], ClusterRecordOf)
    {
      FlatMapStep(visits, i, ClusterRecordOf);
      var v := visits[i];
      if IsYAMLFile(v.path) {
        var loaded := LoadSingleResourceFile(v.content);
        if loaded.Ok? && loaded.value.Some? {
          resources := resources + [loaded.value.value];
        }
      }
    }
    assert visits[..|visits|] == visits;
  }

  /** The walk callback of `loadNamespacedResources` over the files of one namespace. */
  method CollectNamespaced(visits: seq<Visit>) returns (resources: seq<Object>)
    ensures resources == FlatMap(visits, NamespacedRecordsOf)
  {
    resources := [];
    for i := 0 to |visits|
      invariant resources == FlatMap(visits[..i], NamespacedRecordsOf)
    {
      FlatMapStep(visits, i, NamespacedRecordsOf);
      var v := visits[i];
      if IsYAMLFile(v.path) {
        var loaded := LoadMultiResourceFile(v.content);
        if loaded.Ok? {
          resources := resources + loaded.value;
        }
      }
    }
    assert visits[..|visits|] == visits;
  }

  /** The names of the directory entries among `entries`. */
  function DirNames(entries: seq<Node>): set<string> {
    set e | e in entries && e.Dir? :: e.name
  }

  /**
   * The records `loadNamespacedResources` collects from the entries of the
   * namespaces directory `dir`: each sub-directory is walked in turn and the
   * first walk that fails ends the load; other entries are ignored.
   */
  function NamespacesRecords(entries: seq<Node>, dir: Path): Result<seq<Object>, FsError> {
    if |entries| == 0 then Ok([])
    else
      match NamespacesRecords(entries[..|entries| - 1], dir)
      case Err(e) => Err(e)
      case Ok(prev) =>
        var e := entries[|entries| - 1];
        if !e.Dir? then Ok(prev)
        else match Walk(e, dir + [e.name])
          case Err(x) => Err(x)
          case Ok(vs) => Ok(prev + FlatMap(vs, NamespacedRecordsOf))
  }

  /** Entries that are not directories contribute neither records nor namespaces. */
  lemma {:induction false} NamespacesRecordsFiles(entries: seq<Node>, dir: Path, f: Node)
    requires f.File?
    ensures NamespacesRecords(entries + [f], dir) == NamespacesRecords(entries, dir)
    ensures DirNames(entries + [f]) == DirNames(entries)
  {
    assert (entries + [f])[..|entries|] == entries;
  }

  /** One more entry adds its name to the roster exactly when it is a directory. */
  lemma DirNamesStep(entries: seq<Node>, i: int)
    requires 0 <= i < |entries|
    ensures DirNames(entries[..i + 1]) == DirNames(entries[..i]) + (if entries[i].Dir? then {entries[i].name} else {})
  {
    assert entries[..i + 1] == entries[..i] + [entries[i]];
  }

  /** One more entry: a file changes nothing, a directory adds its walk's records or its walk's error. */
  lemma NamespacesRecordsStep(entries: seq<Node>, i: int, dir: Path, prev: seq<Object>)
    requires 0 <= i < |entries| && NamespacesRecords(entries[..i], dir) == Ok(prev)
    ensures !entries[i].Dir? ==> NamespacesRecords(entries[..i + 1], dir) == Ok(prev)
    ensures entries[i].Dir? && Walk(entries[i], dir + [entries[i].name]).Err? ==>
              NamespacesRecords(entries[..i + 1], dir) == Err(Walk(entries[i], dir + [entries[i].name]).error)
    ensures entries[i].Dir? && Walk(entries[i], dir + [entries[i].name]).Ok? ==>
              NamespacesRecords(entries[..i + 1], dir) ==
              Ok(prev + FlatMap(Walk(entries[i], dir + [entries[i].name]).value, NamespacedRecordsOf))
  {
    assert entries[..i + 1][..i] == entries[..i];
  }

  /** `loadNamespacedResources`: the records below each namespace directory and the roster of those directories. */
  method LoadNamespacedResources(root: Node, dir: Path) returns (r: Result<(seq<Object>, seq<string>), FsError>)
    ensures ReadDir(root, dir).Err? ==> r == Err(ReadDir(root, dir).error)
    ensures ReadDir(root, dir).Ok? ==>
              var s := NamespacesRecords(ReadDir(root, dir).value, dir);
              (s.Err? ==> r == Err(s.error)) &&
              (s.Ok? ==> r.Ok? && r.value.0 == s.value)
    ensures r.Ok? ==> ReadDir(root, dir).Ok? && NoDup(r.value.1) &&
                      forall ns :: ns in r.value.1 <==> ns in DirNames(ReadDir(root, dir).value)
  {
    var listing := ReadDir(root, dir);
    if listing.Err? {
      return Err(listing.error);
    }
    var entries := listing.value;
    var resources: seq<Object> := [];
    var namespaceSet: set<string> := {};
    for i := 0 to |entries|
      invariant NamespacesRecords(entries[..i], dir) == Ok(resources)
      invariant namespaceSet == DirNames(entries[..i])
    {
      NamespacesRecordsStep(entries, i, dir, resources);
      DirNamesStep(entries, i);
      var e := entries[i];
      if e.Dir? {
        namespaceSet := namespaceSet + {e.name};
        var walk := Walk(e, dir + [e.name]);
        if walk.Err? {
          assert entries == entries[..i + 1] + entries[i + 1..];
          NamespacesRecordsAbort(entries[..i + 1], entries[i + 1..], dir);
          return Err(walk.error);
        }
        var fileResources := CollectNamespaced(walk.value);
        resources := resources + fileResources;
      }
    }
    assert entries[..|entries|] == entries;
    var namespaces := Elements(namespaceSet);
    return Ok((resources, namespaces));
  }

  /** A failed namespace walk ends the load whatever the entries after it hold. */
  lemma {:induction false} NamespacesRecordsAbort(entries: seq<Node>, more: seq<Node>, dir: Path)
    requires NamespacesRecords(entries, dir).Err?
    ensures NamespacesRecords(entries + more, dir) == NamespacesRecords(entries, dir)
    decreases |more|
  {
    if |more| == 0 {
      assert entries + more == entries;
    } else {
      var prefix := entries + more[..|more| - 1];
      assert (entries + more)[..|entries + more| - 1] == prefix;
      NamespacesRecordsAbort(entries, more[..|more| - 1], dir);
    }
  }

  // ---------------------------------------------------------------- container directory

  /** The archive's container directory looks like "quay-io-...-sha256-...". */
  predicate IsContainerEntry(e: Node) {
    e.Dir? && (HasPrefix(e.name, "quay") || Contains(e.name, "sha256"))
  }

  datatype ContainerError = ListFailed(e: FsError) | ContainerNotFound

  /** `findContainerDir`: the first container-looking directory entry of `base`. */
  method FindContainerDir(root: Node, base: Path) returns (r: Result<Path, ContainerError>)
    ensures ReadDir(root, base).Err? ==> r == Err(ListFailed(ReadDir(root, base).error))
    ensures ReadDir(root, base).Ok? ==>
              var entries := ReadDir(root, base).value;
              match ContainerIndex(entries)
              case None => r == Err(ContainerNotFound)
              case Some(i) => r == Ok(base + [entries[i].name])
  {
    var listing := ReadDir(root, base);
    if listing.Err? {
      return Err(ListFailed(listing.error));
    }
    var entries := listing.value;
    for i := 0 to |entries|
      invariant forall j :: 0 <= j < i ==> !IsContainerEntry(entries[j])
    {
      if IsContainerEntry(entries[i]) {
        FirstContainerUnique(entries, i, ContainerIndex(entries).value);
        return Ok(base + [entries[i].name]);
      }
    }
    return Err(ContainerNotFound);
  }

  /** Entry `i` is the first container-looking directory among `entries`. */
  predicate FirstContainer(entries: seq<Node>, i: int)
    requires 0 <= i < |entries|
  {
    IsContainerEntry(entries[i]) && forall j :: 0 <= j < i ==> !IsContainerEntry(entries[j])
  }

  /** The first container entry is unique, so `findContainerDir` is a function of the listing. */
  lemma FirstContainerUnique(entries: seq<Node>, i: int, j: int)
    requires 0 <= i < |entries| && 0 <= j < |entries|
    requires FirstContainer(entries, i) && FirstContainer(entries, j)
    ensures i == j
  {
  }

  /** The index of the first container entry, if any. */
  function ContainerIndex(entries: seq<Node>): (r: Option<nat>)
    ensures r.Some? ==> r.value < |entries| && FirstContainer(entries, r.value)
    ensures r.None? ==> forall i :: 0 <= i < |entries| ==> !IsContainerEntry(entries[i])
  {
    if |entries| == 0 then None
    else
      var r := ContainerIndex(entries[..|entries| - 1]);
      if r.Some? then Some(r.value)
      else if IsContainerEntry(entries[|entries| - 1]) then Some(|entries| - 1)
      else None
  }

  /** The directory `Load` reads from: the container directory, or the given path when there is none. */
  function ContainerDir(root: Node, base: Path): Path {
    match ReadDir(root, base)
    case Err(_) => base
    case Ok(entries) =>
      match ContainerIndex(entries)
      case None => base
      case Some(i) => base + [entries[i].name]
  }

  // ---------------------------------------------------------------- metadata

  /** A point in time as `time.Time`; the zero value is what an unset field holds. */
  datatype Time = ZeroTime | Instant(nanos: int)

  /**
   * The last trimmed line of `lines` with `prefix` whose remainder the
   * RFC 3339 (section 5.6) parser `parse` accepts; the zero time if none.
   */
  function LastStamp(lines: seq<string>, prefix: string, parse: string -> Option<int>): Time {
    if |lines| == 0 then ZeroTime
    else
      var line := TrimSpace(lines[|lines| - 1]);
      if HasPrefix(line, prefix) && parse(TrimPrefix(line, prefix)).Some? then
        Instant(parse(TrimPrefix(line, prefix)).value)
      else LastStamp(lines[..|lines| - 1], prefix, parse)
  }

  /** Later lines overwrite earlier ones: a stamp found in `b` hides every stamp in `a`. */
  lemma {:induction false} LastStampAppend(a: seq<string>, b: seq<string>, prefix: string, parse: string -> Option<int>)
    ensures LastStamp(a + b, prefix, parse) ==
            if LastStamp(b, prefix, parse) == ZeroTime then LastStamp(a, prefix, parse) else LastStamp(b, prefix, parse)
    decreases |b|
  {
    if |b| == 0 {
      assert a + b == a;
    } else {
      assert (a + b)[..|a + b| - 1] == a + b[..|b| - 1];
      assert (a + b)[|a + b| - 1] == b[|b| - 1];
      LastStampAppend(a, b[..|b| - 1], prefix, parse);
    }
  }

  datatype Metadata = Metadata(
    path: Path, version: string, startTime: Time, endTime: Time,
    resourceCount: nat, namespaceCount: nat)

  /** The version the archive's "version" file records, or "" when it cannot be read. */
  function VersionOf(root: Node, dir: Path): string {
    match ReadFile(root, dir + ["version"])
    case Err(_) => ""
    case Ok(c) => TrimSpace(c.text)
  }

  /** The lines of the archive's "timestamp" file, or none when it cannot be read. */
  function TimestampLines(root: Node, dir: Path): seq<string> {
    match ReadFile(root, dir + ["timestamp"])
    case Err(_) => []
    case Ok(c) => Split(c.text, '\n')
  }

  /** One line of the timestamp loop: a stamp on line `i` replaces the one before it. */
  lemma LastStampStep(lines: seq<string>, i: int, prefix: string, parse: string -> Option<int>)
    requires 0 <= i < |lines|
    ensures var line := TrimSpace(lines[i]);
            LastStamp(lines[..i + 1], prefix, parse) ==
              if HasPrefix(line, prefix) && parse(TrimPrefix(line, prefix)).Some?
              then Instant(parse(TrimPrefix(line, prefix)).value)
              else LastStamp(lines[..i], prefix, parse)
  {
    assert lines[..i + 1][..i] == lines[..i];
  }

  /** The timestamp loop of `loadMetadata`: each line may set the start or the end. */
  method ScanStamps(lines: seq<string>, parse: string -> Option<int>) returns (startTime: Time, endTime: Time)
    ensures startTime == LastStamp(lines, "started ", parse)
    ensures endTime == LastStamp(lines, "ended ", parse)
  {
    startTime, endTime := ZeroTime, ZeroTime;
    for i := 0 to |lines|
      invariant startTime == LastStamp(lines[..i], "started ", parse)
      invariant endTime == LastStamp(lines[..i], "ended ", parse)
    {
      LastStampStep(lines, i, "started ", parse);
      LastStampStep(lines, i, "ended ", parse);
      var line := TrimSpace(lines[i]);
      if HasPrefix(line, "started ") {
        var t := parse(TrimPrefix(line, "started "));
        if t.Some? {
          startTime := Instant(t.value);
        }
        assert !HasPrefix(line, "ended ") by { assert line[0] == 's'; }
      } else if HasPrefix(line, "ended ") {
        var t := parse(TrimPrefix(line, "ended "));
        if t.Some? {
          endTime := Instant(t.value);
        }
      }
    }
    assert lines[..|lines|] == lines;
  }

  /** `loadMetadata`: the version and the start and end stamps; it never fails. */
  method LoadMetadata(root: Node, dir: Path, parse: string -> Option<int>)
    returns (version: string, startTime: Time, endTime: Time)
    ensures version == VersionOf(root, dir)
    ensures startTime == LastStamp(TimestampLines(root, dir), "started ", parse)
    ensures endTime == LastStamp(TimestampLines(root, dir), "ended ", parse)
  {
    version := "";
    var versionFile := ReadFile(root, dir + ["version"]);
    if versionFile.Ok? {
      version := TrimSpace(versionFile.value.text);
    }
    startTime, endTime := ZeroTime, ZeroTime;
    var timestampFile := ReadFile(root, dir + ["timestamp"]);
    if timestampFile.Ok? {
      startTime, endTime := ScanStamps(Split(timestampFile.value.text, '\n'), parse);
    }
  }

  // ---------------------------------------------------------------- Load

  datatype LoadResult = LoadResult(resources: seq<Object>, namespaces: seq<string>, metadata: Metadata)

  datatype LoadError =
    | PathNotFound(path: Path)
    | ClusterScopedFailed(cause: FsError)
    | NamespacedFailed(cause: FsError)

  /** The cluster-scoped part of an archive: nothing when "cluster-scoped-resources" is absent. */
  function ClusterPart(root: Node, dir: Path): Result<seq<Object>, FsError> {
    var d := dir + ["cluster-scoped-resources"];
    if Lookup(root, d).None? then Ok([])
    else match WalkFrom(root, d)
      case Err(e) => Err(e)
      case Ok(vs) => Ok(FlatMap(vs, ClusterRecordOf))
  }

  /** The namespaced part of an archive and its namespace names: nothing when "namespaces" is absent. */
  function NamespacedPart(root: Node, dir: Path): Result<(seq<Object>, set<string>), FsError> {
    var d := dir + ["namespaces"];
    if Lookup(root, d).None? then Ok(([], {}))
    else match ReadDir(root, d)
      case Err(e) => Err(e)
      case Ok(entries) =>
        match NamespacesRecords(entries, d)
        case Err(e) => Err(e)
        case Ok(rs) => Ok((rs, DirNames(entries)))
  }

  /** `Load`'s cluster-scoped step: walk "cluster-scoped-resources" when it exists. */
  method LoadClusterPart(root: Node, dir: Path) returns (r: Result<seq<Object>, FsError>)
    ensures r == ClusterPart(root, dir)
  {
    var clusterDir := dir + ["cluster-scoped-resources"];
    if Lookup(root, clusterDir).None? {
      return Ok([]);
    }
    r := LoadClusterScopedResources(root, clusterDir);
  }

  /** `Load`'s namespaced step: load "namespaces" when it exists, with its roster. */
  method LoadNamespacedPart(root: Node, dir: Path) returns (r: Result<(seq<Object>, seq<string>), FsError>)
    ensures NamespacedPart(root, dir).Err? ==> r == Err(NamespacedPart(root, dir).error)
    ensures NamespacedPart(root, dir).Ok? ==>
              r.Ok? && r.value.0 == NamespacedPart(root, dir).value.0 && NoDup(r.value.1) &&
              forall ns :: ns in r.value.1 <==> ns in NamespacedPart(root, dir).value.1
  {
    var namespacesDir := dir + ["namespaces"];
    if Lookup(root, namespacesDir).None? {
      return Ok(([], []));
    }
    r := LoadNamespacedResources(root, namespacesDir);
  }

  /**
   * `Load`: the records of the archive at `mg` (cluster-scoped first), the
   * namespace roster and the metadata. The RFC 3339 parser is a parameter.
   */
  method Load(root: Node, mg: Path, parse: string -> Option<int>) returns (r: Result<LoadResult, LoadError>)
    ensures Lookup(root, mg).None? ==> r == Err(PathNotFound(mg))
    ensures Lookup(root, mg).Some? ==>
              var dir := ContainerDir(root, mg);
              var cluster := ClusterPart(root, dir);
              var namespaced := NamespacedPart(root, dir);
              (cluster.Err? ==> r == Err(ClusterScopedFailed(cluster.error))) &&
              (cluster.Ok? && namespaced.Err? ==> r == Err(NamespacedFailed(namespaced.error))) &&
              (cluster.Ok? && namespaced.Ok? ==>
                 r.Ok? &&
                 r.value.resources == cluster.value + namespaced.value.0 &&
                 NoDup(r.value.namespaces) &&
                 (forall ns :: ns in r.value.namespaces <==> ns in namespaced.value.1) &&
                 r.value.metadata == Metadata(mg, VersionOf(root, dir),
                                              LastStamp(TimestampLines(root, dir), "started ", parse),
                                              LastStamp(TimestampLines(root, dir), "ended ", parse),
                                              |r.value.resources|, |r.value.namespaces|))
  {
    if Lookup(root, mg).None? {
      return Err(PathNotFound(mg));
    }
    var found := FindContainerDir(root, mg);
    var dir := if found.Ok? then found.value else mg;
    assert dir == ContainerDir(root, mg);
    var version, started, ended := LoadMetadata(root, dir, parse);
    var cluster := LoadClusterPart(root, dir);
    if cluster.Err? {
      return Err(ClusterScopedFailed(cluster.error));
    }
    var namespaced := LoadNamespacedPart(root, dir);
    if namespaced.Err? {
      return Err(NamespacedFailed(namespaced.error));
    }
    var resources := cluster.value + namespaced.value.0;
    var namespaces := namespaced.value.1;
    var metadata := Metadata(mg, version, started, ended, |resources|, |namespaces|);
    return Ok(LoadResult(resources, namespaces, metadata));
  }
}
