/**
 * Decoded YAML/JSON documents and the accessors of Kubernetes' `unstructured`
 * package that the server calls (`NestedString`, `NestedSlice`, `GetName`,
 * `GetNamespace`, `GetLabels`, `GroupVersionKind`).
 */
module Unstructured {
  import opened Wrappers
  import opened Text

  /** A decoded document node. Numbers are the integers the server reads. */
  datatype Value =
    | VMap(fields: map<string, Value>)
    | VList(items: seq<Value>)
    | VStr(str: string)
    | VNum(num: int)
    | VBool(b: bool)
    | VNull

  /** The type assertion `v.(map[string]interface{})` succeeds. */
  predicate IsMapping(v: Value) { v.VMap? }

  /** The type assertion `v.(string)` succeeds. */
  predicate IsString(v: Value) { v.VStr? }

  /** The `Object` map of an `unstructured.Unstructured`. */
  type Object = map<string, Value>

  datatype GVK = GVK(group: string, version: string, kind: string)

  /**
   * `NestedFieldNoCopy`: follow `path` through nested maps. A missing key, a
   * null or a non-map on the way yields nothing.
   */
  function Navigate(v: Value, path: seq<string>): (r: Option<Value>)
    ensures path == [] ==> r == Some(v)
    ensures r.Some? && path != [] ==> v.VMap? && path[0] in v.fields
    decreases |path|
  {
    if path == [] then Some(v)
    else match v
      case VMap(m) => if path[0] in m then Navigate(m[path[0]], path[1..]) else None
      case _ => None
  }

  lemma {:induction false} NavigateAppend(v: Value, p: seq<string>, q: seq<string>)
    ensures Navigate(v, p + q) == match Navigate(v, p) case None => None case Some(w) => Navigate(w, q)
    decreases |p|
  {
    if p != [] {
      assert (p + q)[1..] == p[1..] + q;
      if v.VMap? && p[0] in v.fields {
        NavigateAppend(v.fields[p[0]], p[1..], q);
      }
    } else {
      assert p + q == q;
    }
  }

  function NestedString(obj: Object, path: seq<string>): (r: Option<string>)
    ensures r.Some? <==> Navigate(VMap(obj), path).Some? && Navigate(VMap(obj), path).value.VStr?
  {
    match Navigate(VMap(obj), path)
    case Some(VStr(s)) => Some(s)
    case _ => None
  }

  function NestedSlice(obj: Object, path: seq<string>): (r: Option<seq<Value>>)
    ensures r.Some? <==> Navigate(VMap(obj), path).Some? && Navigate(VMap(obj), path).value.VList?
  {
    match Navigate(VMap(obj), path)
    case Some(VList(items)) => Some(items)
    case _ => None
  }

  /** A string field, or "" when it is absent or not a string (`GetName` and friends). */
  function StringOr(obj: Object, path: seq<string>): string
  {
    match NestedString(obj, path)
    case Some(s) => s
    case None => ""
  }

  function GetName(obj: Object): string { StringOr(obj, ["metadata", "name"]) }

  function GetNamespace(obj: Object): string { StringOr(obj, ["metadata", "namespace"]) }

  function GetKind(obj: Object): string { StringOr(obj, ["kind"]) }

  function GetAPIVersion(obj: Object): string { StringOr(obj, ["apiVersion"]) }

  predicate AllStrings(m: map<string, Value>) { forall k :: k in m ==> m[k].VStr? }

  /** `GetLabels`: the label map when every value is a string, the empty map otherwise. */
  function GetLabels(obj: Object): (labels: map<string, string>)
    ensures labels != map[] ==> Navigate(VMap(obj), ["metadata", "labels"]).Some?
  {
    match Navigate(VMap(obj), ["metadata", "labels"])
    case Some(VMap(m)) =>
      if AllStrings(m) then map k | k in m :: m[k].str else map[]
    case _ => map[]
  }

  function CountChar(s: string, c: char): nat
  {
    if |s| == 0 then 0 else CountChar(s[..|s| - 1], c) + (if s[|s| - 1] == c then 1 else 0)
  }

  /**
   * `schema.ParseGroupVersion`: "" and "/" are the empty group-version, a
   * string without "/" is a core-group version, one "/" separates group and
   * version, and more than one is an error.
   */
  function ParseGroupVersion(gv: string): (r: Option<(string, string)>)
    ensures r.None? <==> gv != "/" && CountChar(gv, '/') > 1
    ensures r.Some? && gv != "" && gv != "/" && '/' in gv ==> r.value.0 + "/" + r.value.1 == gv
    ensures r.Some? && '/' !in gv ==> r.value == ("", gv)
  {
    if gv == "" || gv == "/" then Some(("", ""))
    else if CountChar(gv, '/') == 0 then
      CountZero(gv, '/');
      Some(("", gv))
    else if CountChar(gv, '/') == 1 then
      var parts := SplitFirst(gv, '/');
      CountPositive(gv, '/');
      Some((parts[0], parts[1]))
    else
      CountPositive(gv, '/');
      None
  }

  lemma {:induction false} CountZero(s: string, c: char)
    ensures CountChar(s, c) == 0 <==> c !in s
    decreases |s|
  {
    if |s| > 0 {
      CountZero(s[..|s| - 1], c);
      assert s == s[..|s| - 1] + [s[|s| - 1]];
    }
  }

  lemma CountPositive(s: string, c: char)
    ensures CountChar(s, c) > 0 <==> c in s
  {
    CountZero(s, c);
  }

  /** `Unstructured.GroupVersionKind`: the zero value when the apiVersion does not parse. */
  function GroupVersionKind(obj: Object): (g: GVK)
    ensures ParseGroupVersion(GetAPIVersion(obj)).None? ==> g == GVK("", "", "")
    ensures ParseGroupVersion(GetAPIVersion(obj)).Some? ==> g.kind == GetKind(obj)
  {
    match ParseGroupVersion(GetAPIVersion(obj))
    case Some((group, version)) => GVK(group, version, GetKind(obj))
    case None => GVK("", "", "")
  }

  /** `GroupVersion.String`: "group/version", or the bare version for the core group. */
  function GroupVersionString(group: string, version: string): string
  {
    if group == "" then version else group + "/" + version
  }

  /** Printing a group-version and parsing it back gives it again, for well-formed parts. */
  lemma {:induction false} GroupVersionRoundTrip(group: string, version: string)
    requires '/' !in group && '/' !in version && version != ""
    ensures ParseGroupVersion(GroupVersionString(group, version)) == Some((group, version))
  {
    var gv := GroupVersionString(group, version);
    CountZero(group, '/');
    CountZero(version, '/');
    if group == "" {
      assert gv == version;
    } else {
      CountAppend(group + "/", version, '/');
      CountAppend(group, "/", '/');
      assert CountChar(gv, '/') == 1;
      var parts := SplitFirst(gv, '/');
      assert parts[0] == group by {
        var k := IndexOf(gv, '/');
        assert gv[|group|] == '/';
        assert '/' !in gv[..|group|] by { assert gv[..|group|] == group; }
      }
    }
  }

  lemma {:induction false} CountAppend(a: string, b: string, c: char)
    ensures CountChar(a + b, c) == CountChar(a, c) + CountChar(b, c)
    decreases |b|
  {
    if |b| > 0 {
      assert (a + b)[..|a + b| - 1] == a + b[..|b| - 1];
      CountAppend(a, b[..|b| - 1], c);
    } else {
      assert a + b == a;
    }
  }
}
