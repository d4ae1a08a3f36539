/**
 * The node tools of the cluster toolset: roles from "node-role" labels, the
 * readiness status, the role-filtered node list and the single-node lookup.
 */
module Nodes {
  import opened Wrappers
  import opened Text
  import opened Seqs
  import opened Unstructured
  import opened Index
  import opened GoMaps
  import opened Provider
  import opened Conditions
  import MonitoringHelpers

  const RolePrefix: string := "node-role.kubernetes.io/"

  // ---------------------------------------------------------------- roles

  /** The roles a label map gives: the non-empty suffixes of keys with the role prefix. */
  ghost function RoleSet(labels: map<string, string>): set<string> {
    set k | k in labels && HasPrefix(k, RolePrefix) && |k| > |RolePrefix| :: k[|RolePrefix|..]
  }

  /** `roles` lists exactly the roles of `labels`, without repetition, in ascending order. */
  ghost predicate IsRolesOf(roles: seq<string>, labels: map<string, string>) {
    (forall r :: r in roles <==> r in RoleSet(labels)) &&
    (forall i, j :: 0 <= i < j < |roles| ==> LexLess(roles[i], roles[j]))
  }

  lemma RoleSetMember(labels: map<string, string>, r: string)
    ensures r in RoleSet(labels) <==> RolePrefix + r in labels && r != ""
  {
    if RolePrefix + r in labels && r != "" {
      var k := RolePrefix + r;
      assert k[..|RolePrefix|] == RolePrefix && k[|RolePrefix|..] == r;
    }
    if r in RoleSet(labels) {
      var k :| k in labels && HasPrefix(k, RolePrefix) && |k| > |RolePrefix| && k[|RolePrefix|..] == r;
      assert k == RolePrefix + r;
    }
  }

  /** The collecting loop of `getNodeRoles` over the label keys, in map order. */
  method CollectRoles(keys: seq<string>) returns (roles: seq<string>)
    requires NoDup(keys)
    ensures NoDup(roles)
    ensures forall r :: r in roles <==> exists k :: k in keys && HasPrefix(k, RolePrefix) && r == TrimPrefix(k, RolePrefix) && r != ""
  {
    roles := [];
    for i := 0 to |keys|
      invariant NoDup(roles)
      invariant forall r :: r in roles <==>
                  exists k :: k in keys[..i] && HasPrefix(k, RolePrefix) && r == TrimPrefix(k, RolePrefix) && r != ""
    {
      assert keys[..i + 1] == keys[..i] + [keys[i]];
      var key := keys[i];
      if HasPrefix(key, RolePrefix) {
        var role := TrimPrefix(key, RolePrefix);
        if role != "" {
          forall k | k in keys[..i] && HasPrefix(k, RolePrefix) ensures TrimPrefix(k, RolePrefix) != role {
            var j :| 0 <= j < i && keys[j] == k;
            assert k != key;
            assert k == RolePrefix + TrimPrefix(k, RolePrefix);
          }
          assert role !in roles;
          assert forall a :: 0 <= a < |roles| ==> roles[a] != role;
          roles := roles + [role];
        }
      }
    }
    assert keys[..|keys|] == keys;
  }

  /** `getNodeRoles`: the node's roles, sorted. */
  method GetNodeRoles(labels: map<string, string>) returns (roles: seq<string>)
    ensures IsRolesOf(roles, labels)
    ensures NoDup(roles)
  {
    var keys := Elements(labels.Keys);
    var found := CollectRoles(keys);
    LexOrderStrict();
    roles := SortBy(found, LexLess);
    NoDupPermutation(found, roles);
    SortedDistinctAscending(roles);
    forall r ensures r in roles <==> r in RoleSet(labels) {
      assert r in roles <==> r in multiset(found);
      RoleSetMember(labels, r);
      if r in found {
        var k :| k in keys && HasPrefix(k, RolePrefix) && r == TrimPrefix(k, RolePrefix) && r != "";
        assert k == RolePrefix + r;
      }
      if RolePrefix + r in labels && r != "" {
        var k := RolePrefix + r;
        assert k[..|RolePrefix|] == RolePrefix && k[|RolePrefix|..] == r;
        assert k in keys;
      }
    }
  }

  // ---------------------------------------------------------------- status

  /** `getNodeStatus`: the first "Ready" condition with a string status decides. */
  function NodeStatus(node: Object): (s: string)
    ensures s == "Ready" || s == "NotReady" || s == "Unknown"
    ensures s == "Ready" <==>
              StatusConditions(node).Some? && ConditionField(StatusConditions(node).value, "Ready", "status") == Some("True")
    ensures s == "Unknown" <==>
              StatusConditions(node).None? || ConditionField(StatusConditions(node).value, "Ready", "status").None?
  {
    match StatusConditions(node)
    case None => "Unknown"
    case Some(conds) =>
      match ConditionField(conds, "Ready", "status")
      case Some(st) => if st == "True" then "Ready" else "NotReady"
      case None => "Unknown"
  }

  /**
   * A node is "NotReady" exactly when its first "Ready" condition with a
   * string status says anything but "True" (including "Unknown").
   */
  lemma NodeStatusAgreesWithCondition(node: Object)
    ensures NodeStatus(node) == "NotReady" <==>
              ConditionStatus(node, "Ready") != "True" &&
              StatusConditions(node).Some? && ConditionField(StatusConditions(node).value, "Ready", "status").Some?
  {
  }

  // ---------------------------------------------------------------- truncation

  /**
   * `truncate` of the cluster tools: the string when it fits, else its first
   * `maxLen - 3` characters and "..."; Go panics when `maxLen < 3` and the
   * string does not fit.
   */
  function Truncate(s: string, maxLen: int): (r: string)
    requires |s| <= maxLen || maxLen >= 3
    ensures |s| <= maxLen ==> r == s
    ensures |s| > maxLen ==> |r| == maxLen && r[..maxLen - 3] == s[..maxLen - 3] && r[maxLen - 3..] == "..."
  {
    if |s| <= maxLen then s else s[..maxLen - 3] + "..."
  }

  /** Truncating twice is truncating once. */
  lemma TruncateIdempotent(s: string, maxLen: int)
    requires |s| <= maxLen || maxLen >= 3
    ensures |Truncate(s, maxLen)| <= maxLen || Truncate(s, maxLen) == s
    ensures Truncate(Truncate(s, maxLen), maxLen) == Truncate(s, maxLen)
  {
  }

  // ---------------------------------------------------------------- list

  predicate NameLess(a: Object, b: Object) { LexLess(GetName(a), GetName(b)) }

  lemma NameOrderStrict()
    ensures StrictWeakOrder(NameLess)
  {
    forall x: Object, y: Object, z: Object | !NameLess(x, y) && !NameLess(y, x) && !NameLess(y, z) && !NameLess(z, y)
      ensures !NameLess(x, z) && !NameLess(z, x)
    {
      LexIncomparable(GetName(x), GetName(y));
      LexIncomparable(GetName(y), GetName(z));
    }
    forall x: Object ensures !NameLess(x, x) {
      LexLessIrreflexive(GetName(x));
    }
    forall x: Object, y: Object, z: Object | NameLess(x, y) && NameLess(y, z) ensures NameLess(x, z) {
      LexLessTransitive(GetName(x), GetName(y), GetName(z));
    }
  }

  /** The role filter: "all", or some role equal to it ignoring case. */
  ghost predicate Listed(node: Object, roleFilter: string) {
    roleFilter == "all" || exists r :: r in RoleSet(GetLabels(node)) && EqualFold(r, roleFilter)
  }

  /** The nodes the filter lists, in order. */
  ghost function ListedNodes(nodes: seq<Object>, roleFilter: string): (r: seq<Object>)
    ensures |r| <= |nodes|
  {
    if |nodes| == 0 then []
    else
      var rest := ListedNodes(nodes[..|nodes| - 1], roleFilter);
      if Listed(nodes[|nodes| - 1], roleFilter) then rest + [nodes[|nodes| - 1]] else rest
  }

  lemma ListedNodesStep(nodes: seq<Object>, i: int, roleFilter: string)
    requires 0 <= i < |nodes|
    ensures ListedNodes(nodes[..i + 1], roleFilter) ==
              ListedNodes(nodes[..i], roleFilter) + (if Listed(nodes[i], roleFilter) then [nodes[i]] else [])
  {
    assert nodes[..i + 1][..i] == nodes[..i];
  }

  /** Every listed node is a node that has the role, and "all" lists every node. */
  lemma {:induction false} ListedNodesMeaning(nodes: seq<Object>, roleFilter: string)
    ensures forall n :: n in ListedNodes(nodes, roleFilter) ==> n in nodes && Listed(n, roleFilter)
    ensures roleFilter == "all" ==> ListedNodes(nodes, roleFilter) == nodes
  {
    if |nodes| > 0 {
      var init := nodes[..|nodes| - 1];
      ListedNodesMeaning(init, roleFilter);
      assert nodes == init + [nodes[|nodes| - 1]];
    }
  }

  /** Every node that has the role is listed. */
  lemma {:induction false} ListedNodesComplete(nodes: seq<Object>, roleFilter: string, i: int)
    requires 0 <= i < |nodes| && Listed(nodes[i], roleFilter)
    ensures nodes[i] in ListedNodes(nodes, roleFilter)
  {
    var init := nodes[..|nodes| - 1];
    if i < |nodes| - 1 {
      assert init[i] == nodes[i];
      ListedNodesComplete(init, roleFilter, i);
    }
  }

  /** One line of the node table. */
  datatype NodeRow = NodeRow(name: string, roles: seq<string>, status: string, version: string)

  ghost predicate RowOf(row: NodeRow, node: Object) {
    row.name == GetName(node) &&
    IsRolesOf(row.roles, GetLabels(node)) &&
    row.status == NodeStatus(node) &&
    row.version == StringOr(node, ["status", "nodeInfo", "kubeletVersion"])
  }

  datatype NodeListing = NoNodes | NodeTable(rows: seq<NodeRow>, filteredCount: nat)

  /** The `hasRole` loop: some role equals the filter, ignoring case. */
  method HasRole(roles: seq<string>, roleFilter: string) returns (has: bool)
    ensures has <==> exists i :: 0 <= i < |roles| && EqualFold(roles[i], roleFilter)
  {
    has := false;
    var i := 0;
    while i < |roles|
      invariant 0 <= i <= |roles|
      invariant !exists j :: 0 <= j < i && EqualFold(roles[j], roleFilter)
    {
      if EqualFold(roles[i], roleFilter) {
        has := true;
        return;
      }
      i := i + 1;
    }
  }

  /** One pass of the table loop: the row of a node the filter keeps. */
  method RowFor(node: Object, roleFilter: string) returns (row: Option<NodeRow>)
    ensures row.Some? <==> Listed(node, roleFilter)
    ensures row.Some? ==> RowOf(row.value, node)
  {
    var roles := GetNodeRoles(GetLabels(node));
    if roleFilter != "all" {
      var hasRole := HasRole(roles, roleFilter);
      if !hasRole {
        forall r | r in RoleSet(GetLabels(node)) ensures !EqualFold(r, roleFilter) {
          assert r in roles;
          var j :| 0 <= j < |roles| && roles[j] == r;
        }
        return None;
      }
      assert Listed(node, roleFilter) by {
        var j :| 0 <= j < |roles| && EqualFold(roles[j], roleFilter);
        assert roles[j] in RoleSet(GetLabels(node));
      }
    }
    return Some(NodeRow(GetName(node), roles, NodeStatus(node), StringOr(node, ["status", "nodeInfo", "kubeletVersion"])));
  }

  /** The table loop of `clusterNodesList` over the sorted nodes. */
  method NodeRows(nodes: seq<Object>, roleFilter: string) returns (rows: seq<NodeRow>, filteredCount: nat)
    ensures filteredCount == |rows|
    ensures |rows| == |ListedNodes(nodes, roleFilter)|
    ensures forall i :: 0 <= i < |rows| ==> RowOf(rows[i], ListedNodes(nodes, roleFilter)[i])
  {
    rows := [];
    filteredCount := 0;
    for i := 0 to |nodes|
      invariant filteredCount == |rows| == |ListedNodes(nodes[..i], roleFilter)|
      invariant forall k :: 0 <= k < |rows| ==> RowOf(rows[k], ListedNodes(nodes[..i], roleFilter)[k])
    {
      ListedNodesStep(nodes, i, roleFilter);
      var row := RowFor(nodes[i], roleFilter);
      if row.None? {
        continue;
      }
      filteredCount := filteredCount + 1;
      rows := rows + [row.value];
    }
    assert nodes[..|nodes|] == nodes;
  }

  /** `parseGVK("v1", "Node")`. */
  function NodeKind(): (g: GVK)
    ensures g == GVK("", "v1", "Node")
  {
    MonitoringHelpers.ParseGVKRoundTrip("", "v1", "Node");
    MonitoringHelpers.ParseGVK("v1", "Node")
  }

  /**
   * `clusterNodesList`: "No nodes found" without nodes; otherwise the nodes
   * sorted by name, those the role filter keeps as rows, and their count.
   */
  method ClusterNodesList(p: Provider, roleFilter: string)
    returns (r: Result<NodeListing, ProviderError>, ghost listed: seq<Object>)
    requires p.Valid()
    ensures Enumerates(listed, BucketOf(p.index.byGVK, GVK("", "v1", "Node")))
    ensures r.Ok?
    ensures r.value.NoNodes? <==> |listed| == 0
    ensures r.value.NodeTable? ==>
              exists sorted :: multiset(sorted) == multiset(listed) && SortedBy(sorted, NameLess) &&
                               |r.value.rows| == |ListedNodes(sorted, roleFilter)| &&
                               (forall i :: 0 <= i < |r.value.rows| ==> RowOf(r.value.rows[i], ListedNodes(sorted, roleFilter)[i])) &&
                               r.value.filteredCount == |r.value.rows|
  {
    var list;
    list, listed := p.ListResources(NodeKind(), "", ListOptions("", "", 0));
    if list.Err? {
      assert false;
    }
    assert list.value.items == listed;
    var nodes := list.value.items;
    if |nodes| == 0 {
      return Ok(NoNodes), listed;
    }
    NameOrderStrict();
    var sorted := SortBy(nodes, NameLess);
    var rows, filteredCount := NodeRows(sorted, roleFilter);
    return Ok(NodeTable(rows, filteredCount)), listed;
  }

  // ---------------------------------------------------------------- get

  datatype NodeError = NameRequired | NodeNotFound(name: string)

  /** What `clusterNodeGet` reports: the node itself, its roles and its status. */
  datatype NodeDetail = NodeDetail(node: Object, roles: seq<string>, status: string)

  /** The lookup loop: the index of the first item with the name, if any. */
  method FindByName(items: seq<Object>, name: string) returns (found: Option<nat>)
    ensures found.None? <==> forall i :: 0 <= i < |items| ==> GetName(items[i]) != name
    ensures found.Some? ==> found.value < |items| && GetName(items[found.value]) == name &&
                            forall i :: 0 <= i < found.value ==> GetName(items[i]) != name
  {
    for i := 0 to |items|
      invariant forall k :: 0 <= k < i ==> GetName(items[k]) != name
    {
      if GetName(items[i]) == name {
        return Some(i);
      }
    }
    return None;
  }

  /**
   * `clusterNodeGet`: an empty name is an error; otherwise the first listed
   * node with that name, or an error when there is none.
   */
  method ClusterNodeGet(p: Provider, name: string) returns (r: Result<NodeDetail, NodeError>, ghost listed: seq<Object>)
    requires p.Valid()
    ensures r == Err(NameRequired) <==> name == ""
    ensures name != "" ==> Enumerates(listed, BucketOf(p.index.byGVK, GVK("", "v1", "Node")))
    ensures name != "" ==> (r == Err(NodeNotFound(name)) <==> forall i :: 0 <= i < |listed| ==> GetName(listed[i]) != name)
    ensures r.Ok? ==> exists i :: 0 <= i < |listed| && listed[i] == r.value.node && GetName(listed[i]) == name &&
                                  forall k :: 0 <= k < i ==> GetName(listed[k]) != name
    ensures r.Ok? ==> IsRolesOf(r.value.roles, GetLabels(r.value.node)) && r.value.status == NodeStatus(r.value.node)
  {
    listed := [];
    if name == "" {
      return Err(NameRequired), listed;
    }
    var items;
    items, listed := p.ListKind(NodeKind());
    r := Detail(items, name);
  }

  /** The detail of the first item with the name, or the not-found error. */
  method Detail(items: seq<Object>, name: string) returns (r: Result<NodeDetail, NodeError>)
    ensures r.Err? ==> r == Err(NodeNotFound(name))
    ensures r.Err? <==> forall i :: 0 <= i < |items| ==> GetName(items[i]) != name
    ensures r.Ok? ==> exists i :: 0 <= i < |items| && items[i] == r.value.node && GetName(items[i]) == name &&
                                  forall k :: 0 <= k < i ==> GetName(items[k]) != name
    ensures r.Ok? ==> IsRolesOf(r.value.roles, GetLabels(r.value.node)) && r.value.status == NodeStatus(r.value.node)
  {
    var found := FindByName(items, name);
    if found.None? {
      return Err(NodeNotFound(name));
    }
    var node := items[found.value];
    var roles := GetNodeRoles(GetLabels(node));
    return Ok(NodeDetail(node, roles, NodeStatus(node)));
  }
}
