/**
 * The ETCD tools of the diagnostics toolset: the endpoint marks of the health
 * report, and (in the second module) the total, order and top-N cut of the
 * object counts.
 */
module Etcd {
  import opened Wrappers
  import opened Text
  import opened Seqs
  import opened FileTree
  import opened Unstructured
  import opened Provider
  import Int64
  import Loader

  // ---------------------------------------------------------------- etcd_health

  /** `✓` for an endpoint whose health reads "healthy", `✗` for any other. */
  function EndpointMark(health: string): (m: string)
    ensures m == "✓" <==> health == "healthy"
    ensures m == "✓" || m == "✗"
  {
    if health != "healthy" then "✗" else "✓"
  }

  datatype EndpointLine = EndpointLine(mark: string, address: string, health: string)

  /** What `etcdHealth` shows: the overall status, one line per endpoint, and the alarms. */
  datatype HealthReport = HealthReport(healthy: bool, endpoints: seq<EndpointLine>, alarms: seq<string>)

  /** The endpoints of "endpoint_health.json" as `GetETCDHealth` decodes them, or the error it reports. */
  function DecodedEndpoints(root: Node, dir: Path): (r: Result<seq<HealthEndpoint>, ProviderError>)
    ensures ReadFile(root, dir + ["etcd_info", "endpoint_health.json"]).Err? ==> r.Err? && r.error.HealthReadFailed?
  {
    match ReadFile(root, dir + ["etcd_info", "endpoint_health.json"])
    case Err(e) => Err(HealthReadFailed(e))
    case Ok(c) =>
      match c.decoded
      case Malformed => Err(HealthParseFailed)
      case Doc(v) => DecodeEndpoints(v)
  }

  function LineOf(e: ETCDEndpoint): (l: EndpointLine)
    ensures l.mark == "✓" <==> e.health == "healthy"
  {
    EndpointLine(EndpointMark(e.health), e.address, e.health)
  }

  /** The loop that formats one line per endpoint, in order. */
  method LinesOf(endpoints: seq<ETCDEndpoint>) returns (lines: seq<EndpointLine>)
    ensures |lines| == |endpoints|
    ensures forall k :: 0 <= k < |endpoints| ==> lines[k] == LineOf(endpoints[k])
  {
    lines := [];
    for i := 0 to |endpoints|
      invariant |lines| == i
      invariant forall k :: 0 <= k < i ==> lines[k] == LineOf(endpoints[k])
    {
      lines := lines + [LineOf(endpoints[i])];
    }
  }

  /**
   * `etcdHealth`: the health report as lines; an endpoint gets `✓` exactly
   * when `GetETCDHealth` judged its health value healthy.
   */
  method EtcdHealth(p: Provider) returns (r: Result<HealthReport, ProviderError>)
    ensures var eps := DecodedEndpoints(p.root, Loader.ContainerDir(p.root, p.path));
            (eps.Err? ==> r == Err(eps.error)) &&
            (eps.Ok? ==>
               r.Ok? && |r.value.endpoints| == |eps.value| &&
               (forall i :: 0 <= i < |eps.value| ==>
                  r.value.endpoints[i].address == eps.value[i].endpoint &&
                  (r.value.endpoints[i].mark == "✓" <==> IsHealthy(eps.value[i].health))) &&
               (r.value.healthy <==> forall i :: 0 <= i < |eps.value| ==> IsHealthy(eps.value[i].health)) &&
               r.value.alarms == AlarmsOf(p.root, Loader.ContainerDir(p.root, p.path)))
  {
    var health := p.GetETCDHealth();
    if health.Err? {
      return Err(health.error);
    }
    var h := health.value;
    var lines := LinesOf(h.endpoints);
    return Ok(HealthReport(h.healthy, lines, h.alarms));
  }
}

/** The object counts of `etcdObjectCount`: the total, the order and the top-N cut. */
module EtcdCounts {
  import opened Wrappers
  import opened Text
  import opened Seqs
  import Int64
  import Api

  /** One resource type and its object count. */
  datatype Entry = Entry(resource: string, count: int)

  /** The counts map holds `int64` values. */
  predicate Int64Counts(counts: map<string, int>) {
    forall k :: k in counts ==> Int64.InRange(counts[k])
  }

  function Resources(entries: seq<Entry>): (rs: seq<string>)
    ensures |rs| == |entries|
    ensures forall i :: 0 <= i < |entries| ==> rs[i] == entries[i].resource
  {
    seq(|entries|, i requires 0 <= i < |entries| => entries[i].resource)
  }

  /** `entries` lists every resource of `counts` once, with its count, in some order. */
  ghost predicate EntriesOf(entries: seq<Entry>, counts: map<string, int>) {
    |entries| == |counts| && NoDup(Resources(entries)) &&
    (forall i :: 0 <= i < |entries| ==> entries[i].resource in counts && counts[entries[i].resource] == entries[i].count) &&
    (forall k :: k in counts ==> Entry(k, counts[k]) in entries)
  }

  /** The exact sum of the counts. */
  function CountSum(entries: seq<Entry>): int {
    if |entries| == 0 then 0 else CountSum(entries[..|entries| - 1]) + entries[|entries| - 1].count
  }

  lemma {:induction false} CountSumAppend(a: seq<Entry>, b: seq<Entry>)
    ensures CountSum(a + b) == CountSum(a) + CountSum(b)
  {
    if |b| > 0 {
      assert (a + b)[..|a + b| - 1] == a + b[..|b| - 1];
      assert (a + b)[|a + b| - 1] == b[|b| - 1];
      CountSumAppend(a, b[..|b| - 1]);
    } else {
      assert a + b == a;
    }
  }

  /** The sum does not depend on the order of the entries. */
  lemma {:induction false} CountSumPermutation(a: seq<Entry>, b: seq<Entry>)
    requires multiset(a) == multiset(b)
    ensures CountSum(a) == CountSum(b)
  {
    if |a| > 0 {
      var x := a[|a| - 1];
      assert x in multiset(b);
      var j :| 0 <= j < |b| && b[j] == x;
      var rest := b[..j] + b[j + 1..];
      assert b == b[..j] + [x] + b[j + 1..];
      assert a == a[..|a| - 1] + [x];
      assert multiset(a) == multiset(a[..|a| - 1]) + multiset{x};
      assert multiset(b) == multiset(b[..j]) + multiset{x} + multiset(b[j + 1..]);
      assert multiset(rest) == multiset(b[..j]) + multiset(b[j + 1..]);
      assert multiset(a[..|a| - 1]) == multiset(a) - multiset{x};
      assert multiset(rest) == multiset(b) - multiset{x};
      CountSumPermutation(a[..|a| - 1], rest);
      CountSumAppend(b[..j] + [x], b[j + 1..]);
      CountSumAppend(b[..j], [x]);
      CountSumAppend(b[..j], b[j + 1..]);
    }
  }

  /** Two listings of the same counts are permutations of each other. */
  lemma EntriesOfPermutation(a: seq<Entry>, b: seq<Entry>, counts: map<string, int>)
    requires EntriesOf(a, counts) && EntriesOf(b, counts)
    ensures multiset(a) == multiset(b)
  {
    forall x ensures multiset(a)[x] == multiset(b)[x] {
      UniqueEntry(a, counts, x);
      UniqueEntry(b, counts, x);
    }
  }

  /** In a listing, an entry occurs at most once, and it occurs exactly when it is an entry of the map. */
  lemma UniqueEntry(a: seq<Entry>, counts: map<string, int>, x: Entry)
    requires EntriesOf(a, counts)
    ensures multiset(a)[x] == if x.resource in counts && counts[x.resource] == x.count then 1 else 0
  {
    NoDupEntries(a);
    NoDupCount(a, x);
    if x.resource in counts && counts[x.resource] == x.count {
      assert x in a;
    } else {
      forall i | 0 <= i < |a| ensures a[i] != x {
      }
      assert x !in a;
    }
  }

  lemma NoDupEntries(a: seq<Entry>)
    requires NoDup(Resources(a))
    ensures NoDup(a)
  {
    forall i, j | 0 <= i < j < |a| ensures a[i] != a[j] {
      assert Resources(a)[i] != Resources(a)[j];
    }
  }

  /** The total does not depend on the order in which the map is walked. */
  lemma TotalIndependentOfOrder(a: seq<Entry>, b: seq<Entry>, counts: map<string, int>)
    requires EntriesOf(a, counts) && EntriesOf(b, counts)
    ensures CountSum(a) == CountSum(b)
  {
    EntriesOfPermutation(a, b, counts);
    CountSumPermutation(a, b);
  }

  /** A permutation of a listing is a listing. */
  lemma PermutedEntries(a: seq<Entry>, b: seq<Entry>, counts: map<string, int>)
    requires EntriesOf(a, counts) && multiset(b) == multiset(a)
    ensures EntriesOf(b, counts)
  {
    NoDupEntries(a);
    NoDupPermutation(a, b);
    assert |b| == |multiset(b)|;
    forall i, j | 0 <= i < j < |b| ensures Resources(b)[i] != Resources(b)[j] {
      assert b[i] in multiset(a) && b[j] in multiset(a);
      assert b[i] != b[j];
    }
    forall k | k in counts ensures Entry(k, counts[k]) in b {
      assert Entry(k, counts[k]) in multiset(a);
    }
    forall i | 0 <= i < |b| ensures b[i].resource in counts && counts[b[i].resource] == b[i].count {
      assert b[i] in multiset(a);
    }
  }

  /** `for resource, count := range counts { entries = append(...); totalCount += count }`. */
  method CollectEntries(counts: map<string, int>) returns (entries: seq<Entry>, total: int)
    ensures EntriesOf(entries, counts)
    ensures total == Int64.Wrap(CountSum(entries))
  {
    var keys := Elements(counts.Keys);
    entries, total := [], 0;
    for i := 0 to |keys|
      invariant |entries| == i
      invariant forall k :: 0 <= k < i ==> entries[k] == Entry(keys[k], counts[keys[k]])
      invariant total == Int64.Wrap(CountSum(entries))
    {
      var resource := keys[i];
      var count := counts[resource];
      Int64.WrapStep(total, CountSum(entries), count);
      assert (entries + [Entry(resource, count)])[..i] == entries;
      entries := entries + [Entry(resource, count)];
      total := Int64.Wrap(total + count);
    }
    KeyWalk(keys, entries, counts);
  }

  /** Walking the keys, each once, gives a listing of the map. */
  lemma KeyWalk(keys: seq<string>, entries: seq<Entry>, counts: map<string, int>)
    requires |keys| == |counts.Keys| && NoDup(keys) && forall x :: x in keys <==> x in counts.Keys
    requires |entries| == |keys| && forall k :: 0 <= k < |keys| ==> entries[k] == Entry(keys[k], counts[keys[k]])
    ensures EntriesOf(entries, counts)
  {
    assert Resources(entries) == keys;
    forall x | x in counts ensures Entry(x, counts[x]) in entries {
      var k :| 0 <= k < |keys| && keys[k] == x;
      assert entries[k] == Entry(x, counts[x]);
    }
  }

  /** `sortBy == "count"`: larger counts first. */
  predicate ByCount(a: Entry, b: Entry) { a.count > b.count }

  /** Any other `sortBy`: resource names ascending. */
  predicate ByResource(a: Entry, b: Entry) { LexLess(a.resource, b.resource) }

  function EntryOrder(sortBy: string): (Entry, Entry) -> bool {
    if sortBy == "count" then ByCount else ByResource
  }

  lemma EntryOrderStrict(sortBy: string)
    ensures StrictWeakOrder(EntryOrder(sortBy))
  {
    LexOrderStrict();
    assert StrictOrder(ByResource);
    forall x: Entry, y: Entry, z: Entry
      | !ByResource(x, y) && !ByResource(y, x) && !ByResource(y, z) && !ByResource(z, y)
      ensures !ByResource(x, z) && !ByResource(z, x)
    {
      LexIncomparable(x.resource, y.resource);
      LexIncomparable(y.resource, z.resource);
    }
  }

  /** Sorted by count, the counts never increase. */
  lemma SortedByCountDescending(s: seq<Entry>)
    requires SortedBy(s, ByCount)
    ensures forall i, j :: 0 <= i < j < |s| ==> s[i].count >= s[j].count
  {
    forall i, j | 0 <= i < j < |s| ensures s[i].count >= s[j].count {
      assert !ByCount(s[j], s[i]);
    }
  }

  /** Sorted by name, a listing's resource names strictly ascend. */
  lemma SortedByResourceAscending(s: seq<Entry>, counts: map<string, int>)
    requires EntriesOf(s, counts) && SortedBy(s, ByResource)
    ensures forall i, j :: 0 <= i < j < |s| ==> LexLess(s[i].resource, s[j].resource)
  {
    var rs := Resources(s);
    forall i, j | 0 <= i < j < |rs| ensures !LexLess(rs[j], rs[i]) {
      assert !ByResource(s[j], s[i]);
    }
    SortedDistinctAscending(rs);
  }

  /** `for _, e := range entries { displayedCount += e.Count }`. */
  method DisplayedCount(entries: seq<Entry>) returns (total: int)
    ensures total == Int64.Wrap(CountSum(entries))
  {
    total := 0;
    for i := 0 to |entries|
      invariant total == Int64.Wrap(CountSum(entries[..i]))
    {
      assert entries[..i + 1][..i] == entries[..i];
      Int64.WrapStep(total, CountSum(entries[..i]), entries[i].count);
      total := Int64.Wrap(total + entries[i].count);
    }
    assert entries[..|entries|] == entries;
  }

  /**
   * What `etcdObjectCount` shows: the total over all types, the number of
   * types, the "Top N" heading, the rows, and the count the rows cover when
   * the cut dropped some types.
   */
  datatype ObjectCountReport = ObjectCountReport(
    total: int,
    resourceTypes: nat,
    topHeading: Option<int>,
    byCount: bool,
    rows: seq<Entry>,
    displayed: Option<int>)

  /**
   * `etcdObjectCount` over the counts `GetETCDObjectCount` returned: the total
   * and the number of types are taken before the cut; the rows are the first
   * `top` of the sorted entries (all of them when `top <= 0`).
   */
  method EtcdObjectCount(counts: map<string, int>, args: Api.Arguments)
    returns (r: ObjectCountReport, ghost listed: seq<Entry>)
    requires Int64Counts(counts)
    ensures EntriesOf(listed, counts)
    ensures r.total == Int64.Wrap(CountSum(listed))
    ensures r.resourceTypes == |counts|
    ensures var sortBy := Api.GetString(args, "sortBy", "count");
            var top := Api.GetInt(args, "top", 0);
            (r.topHeading.Some? <==> top > 0) && (r.topHeading.Some? ==> r.topHeading.value == top) &&
            (r.byCount <==> sortBy == "count") &&
            (exists sorted :: EntriesOf(sorted, counts) && SortedBy(sorted, EntryOrder(sortBy)) &&
                              r.rows == Limit(sorted, top)) &&
            (r.displayed.Some? <==> 0 < top < |counts|) &&
            (r.displayed.Some? ==> r.displayed.value == Int64.Wrap(CountSum(r.rows)))
  {
    var sortBy := Api.GetString(args, "sortBy", "count");
    var top := Api.GetInt(args, "top", 0);
    var entries, totalCount := CollectEntries(counts);
    listed := entries;
    EntryOrderStrict(sortBy);
    var sorted := SortBy(entries, EntryOrder(sortBy));
    PermutedEntries(entries, sorted, counts);
    var rows := sorted;
    if top > 0 && |rows| > top {
      rows := rows[..top];
    }
    assert rows == Limit(sorted, top);
    var displayed: Option<int> := None;
    if top > 0 && top < |counts| {
      var displayedCount := DisplayedCount(rows);
      displayed := Some(displayedCount);
    }
    r := ObjectCountReport(totalCount, |counts|, if top > 0 then Some(top) else None, sortBy == "count", rows, displayed);
  }
}
