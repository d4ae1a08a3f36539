/** Helpers shared by the monitoring reports: archive paths, replica choice, number and text formatting, label getters. */
module MonitoringHelpers {
  import opened Wrappers
  import opened Text
  import opened Seqs
  import opened FileTree
  import Int64
  import Unstructured

  // ---------------------------------------------------------------- paths

  /** `getPrometheusReplicaPath`: containerDir/monitoring/prometheus/prometheus-k8s-<n>. */
  function PrometheusReplicaPath(containerDir: Path, replica: int): (p: Path)
    ensures p == PrometheusCommonPath(containerDir) + ["prometheus-k8s-" + IntToString(replica)]
  {
    containerDir + ["monitoring", "prometheus", "prometheus-k8s-" + IntToString(replica)]
  }

  /** `getPrometheusCommonPath`: containerDir/monitoring/prometheus. */
  function PrometheusCommonPath(containerDir: Path): (p: Path)
    ensures containerDir <= p && |p| == |containerDir| + 2
  {
    containerDir + ["monitoring", "prometheus"]
  }

  /** `getAlertManagerPath`: containerDir/monitoring/alertmanager, beside the Prometheus data. */
  function AlertManagerPath(containerDir: Path): (p: Path)
    ensures |p| == |PrometheusCommonPath(containerDir)|
    ensures p[..|p| - 1] == PrometheusCommonPath(containerDir)[..|p| - 1]
    ensures Base(p) == "alertmanager"
  {
    containerDir + ["monitoring", "alertmanager"]
  }

  /** Why `readJSON` gave up on a file. */
  datatype JSONError = FileReadFailed(cause: FsError) | UnmarshalFailed

  /**
   * `readJSON`: read the file at `p` and unmarshal it with `decode`, the JSON
   * decoder for the expected document type.
   */
  function ReadJSON<T>(root: Node, p: Path, decode: string -> Option<T>): (r: Result<T, JSONError>)
    ensures r.Ok? <==> ReadFile(root, p).Ok? && decode(ReadFile(root, p).value.text).Some?
    ensures r.Ok? ==> r.value == decode(ReadFile(root, p).value.text).value
    ensures ReadFile(root, p).Err? ==> r == Err(FileReadFailed(ReadFile(root, p).error))
    ensures ReadFile(root, p).Ok? && r.Err? ==> r == Err(UnmarshalFailed)
  {
    match ReadFile(root, p)
    case Err(e) => Err(FileReadFailed(e))
    case Ok(c) =>
      match decode(c.text)
      case None => Err(UnmarshalFailed)
      case Some(v) => Ok(v)
  }

  /** `getReplicaNumbers`: one named replica, or both. */
  function ReplicaNumbers(replica: string): (rs: seq<int>)
    ensures replica in {"prometheus-k8s-0", "0"} ==> rs == [0]
    ensures replica in {"prometheus-k8s-1", "1"} ==> rs == [1]
    ensures replica !in {"prometheus-k8s-0", "0", "prometheus-k8s-1", "1"} ==> rs == [0, 1]
  {
    match replica
    case "prometheus-k8s-0" => [0]
    case "0" => [0]
    case "prometheus-k8s-1" => [1]
    case "1" => [1]
    case _ => [0, 1]
  }

  /** A replica named by `ReplicaNumbers` always has its path under the common Prometheus directory. */
  lemma ReplicaPathsUnderCommon(containerDir: Path, replica: string)
    ensures forall n :: n in ReplicaNumbers(replica) ==>
              PrometheusCommonPath(containerDir) <= PrometheusReplicaPath(containerDir, n) &&
              (n == 0 || n == 1)
  {
  }

  // ---------------------------------------------------------------- formatNumber

  /**
   * The text the `formatNumber` loop builds from `s[..]` when the whole
   * string has length `total`: a comma before every position `i > 0` with
   * `(total - i) % 3 == 0`.
   */
  function Commaed(s: string, total: int): string {
    if |s| == 0 then ""
    else
      var i := |s| - 1;
      Commaed(s[..i], total) + (if i > 0 && (total - i) % 3 == 0 then "," else "") + [s[i]]
  }

  /** The reference grouping: groups of three from the right, the first group holding one to three characters. */
  function Chunks(s: string): (cs: seq<string>)
    ensures |cs| >= 1
    ensures 1 <= |s| ==> 1 <= |cs[0]| <= 3
    ensures forall i :: 1 <= i < |cs| ==> |cs[i]| == 3
    ensures forall i :: 0 <= i < |cs| ==> forall c :: c in cs[i] ==> c in s
  {
    if |s| <= 3 then [s]
    else
      var init := Chunks(s[..|s| - 3]);
      var last := s[|s| - 3..];
      assert forall i :: 0 <= i < |init| ==> forall c :: c in init[i] ==> c in s;
      init + [last]
  }

  function Group(s: string): string { Join(Chunks(s), ",") }

  lemma ModThree(a: int, b: int, j: int)
    requires a % 3 == b % 3
    ensures (a - j) % 3 == (b - j) % 3
  {
    var k := (a - b) / 3;
    assert a - b == 3 * k;
    assert a - j == (b - j) + 3 * k;
  }

  /** Only the total's residue modulo three matters. */
  lemma {:induction false} CommaedShift(t: string, a: int, b: int)
    requires a % 3 == b % 3
    ensures Commaed(t, a) == Commaed(t, b)
    decreases |t|
  {
    if |t| > 0 {
      var i := |t| - 1;
      CommaedShift(t[..i], a, b);
      ModThree(a, b, i);
      assert Commaed(t, a) == Commaed(t[..i], a) + (if i > 0 && (a - i) % 3 == 0 then "," else "") + [t[i]];
      assert Commaed(t, b) == Commaed(t[..i], b) + (if i > 0 && (b - i) % 3 == 0 then "," else "") + [t[i]];
    }
  }

  /** One step of `Commaed`: a character appended, with a comma in front of it when its position is due one. */
  lemma CommaedSnoc(t: string, c: char, total: int)
    ensures Commaed(t + [c], total) == Commaed(t, total) + (if |t| > 0 && (total - |t|) % 3 == 0 then "," else "") + [c]
  {
    assert (t + [c])[..|t|] == t;
  }

  lemma NextResidues(x: int)
    requires x % 3 == 0
    ensures (x - 1) % 3 == 2 && (x - 2) % 3 == 1
  {
  }

  /** Three more characters after a position due a comma. */
  lemma CommaedLastThree(s: string, total: int)
    requires |s| >= 4 && (total - (|s| - 3)) % 3 == 0
    ensures Commaed(s, total) == Commaed(s[..|s| - 3], total) + "," + s[|s| - 3..]
  {
    var m := |s| - 3;
    NextResidues(total - m);
    var t0 := s[..m];
    var t1 := t0 + [s[m]];
    var t2 := t1 + [s[m + 1]];
    assert s == t2 + [s[m + 2]];
    CommaedSnoc(t0, s[m], total);
    CommaedSnoc(t1, s[m + 1], total);
    CommaedSnoc(t2, s[m + 2], total);
    assert s[m..] == [s[m], s[m + 1], s[m + 2]];
  }

  /** A string no longer than a total of at most three gets no comma. */
  lemma {:induction false} CommaedShort(s: string, total: int)
    requires |s| <= total <= 3
    ensures Commaed(s, total) == s
    decreases |s|
  {
    if |s| > 0 {
      var i := |s| - 1;
      CommaedShort(s[..i], total);
      assert s == s[..i] + [s[i]];
      CommaedSnoc(s[..i], s[i], total);
      assert i == 0 || (total - i) % 3 != 0;
    }
  }

  /** The loop's commas are exactly the reference grouping's. */
  lemma {:induction false} CommaedIsGroup(s: string)
    ensures Commaed(s, |s|) == Group(s)
    decreases |s|
  {
    if |s| <= 3 {
      CommaedShort(s, |s|);
    } else {
      var m := |s| - 3;
      CommaedLastThree(s, |s|);
      CommaedShift(s[..m], |s|, m);
      CommaedIsGroup(s[..m]);
      JoinAppend(Chunks(s[..m]), s[m..], ",");
    }
  }

  /** The text without its commas. */
  function DropCommas(s: string): (r: string)
    ensures ',' !in r
  {
    if |s| == 0 then "" else DropCommas(s[..|s| - 1]) + (if s[|s| - 1] == ',' then "" else [s[|s| - 1]])
  }

  lemma {:induction false} DropCommasAppend(a: string, b: string)
    ensures DropCommas(a + b) == DropCommas(a) + DropCommas(b)
    decreases |b|
  {
    if |b| == 0 {
      assert a + b == a;
    } else {
      assert (a + b)[..|a + b| - 1] == a + b[..|b| - 1];
      DropCommasAppend(a, b[..|b| - 1]);
    }
  }

  lemma {:induction false} DropCommasNone(s: string)
    requires ',' !in s
    ensures DropCommas(s) == s
    decreases |s|
  {
    if |s| > 0 {
      var n := |s| - 1;
      var init := s[..n];
      assert s == init + [s[n]];
      assert ',' !in init;
      DropCommasNone(init);
      DropCommasLast(s);
    }
  }

  lemma DropCommasLast(s: string)
    requires |s| > 0 && s[|s| - 1] != ','
    ensures DropCommas(s) == DropCommas(s[..|s| - 1]) + [s[|s| - 1]]
  {
  }

  lemma {:induction false} GroupStep(s: string)
    requires |s| > 3
    ensures Group(s) == Group(s[..|s| - 3]) + "," + s[|s| - 3..]
  {
    JoinAppend(Chunks(s[..|s| - 3]), s[|s| - 3..], ",");
  }

  lemma {:induction false} DropCommasJoin(g: string, tail: string)
    requires ',' !in tail
    ensures DropCommas(g + "," + tail) == DropCommas(g) + tail
  {
    DropCommasAppend(g + ",", tail);
    DropCommasComma(g);
    DropCommasNone(tail);
  }

  lemma DropCommasComma(g: string)
    ensures DropCommas(g + ",") == DropCommas(g)
  {
    assert (g + ",")[..|g|] == g;
  }

  /** Dropping the commas of a grouping gives back the digits. */
  lemma {:induction false} GroupDigits(s: string)
    requires ',' !in s
    ensures DropCommas(Group(s)) == s
    decreases |s|
  {
    if |s| <= 3 {
      DropCommasNone(s);
    } else {
      var m := |s| - 3;
      GroupStep(s);
      var head := s[..m];
      var tail := s[m..];
      assert s == head + tail;
      assert ',' !in head;
      assert ',' !in tail;
      GroupDigits(head);
      DropCommasJoin(Group(head), tail);
    }
  }

  /** The comma-separated groups of a grouping are its chunks: one to three, then threes. */
  lemma GroupParts(s: string)
    requires ',' !in s
    ensures Split(Group(s), ',') == Chunks(s)
  {
    SplitJoin(Chunks(s), ',');
  }

  /**
   * `formatNumber`: "%d" of `n`, with a comma before every position
   * `i > 0` whose distance from the end is a multiple of three. The sign
   * counts as a digit.
   */
  method FormatNumber(n: int) returns (result: string)
    requires Int64.InRange(n)
    ensures result == Group(IntToString(n))
  {
    var str := IntToString(n);
    if |str| <= 3 {
      CommaedShort(str, |str|);
      CommaedIsGroup(str);
      return str;
    }
    result := "";
    for i := 0 to |str|
      invariant result == Commaed(str[..i], |str|)
    {
      assert str[..i + 1][..i] == str[..i];
      if i > 0 && (|str| - i) % 3 == 0 {
        result := result + ",";
      }
      result := result + [str[i]];
    }
    assert str[..|str|] == str;
    CommaedIsGroup(str);
  }

  /** The sign is grouped like a digit: -123 is shown as "-,123". */
  lemma NegativeGrouping()
    ensures Group("-123") == "-,123"
  {
    assert "-123"[..1] == "-";
    assert "-123"[1..] == "123";
  }

  // ---------------------------------------------------------------- formatBytes

  function Pow1024(e: nat): (p: int)
    ensures p >= 1
  {
    if e == 0 then 1 else 1024 * Pow1024(e - 1)
  }

  /** How `formatBytes` shows a size: plain bytes, or `bytes / div` (shown with one decimal) with a unit letter. */
  datatype ByteDisplay = Plain(text: string) | Scaled(bytes: int, div: int, unit: char)

  lemma DivDiv(a: int, b: int, c: int)
    requires a >= 0 && b > 0 && c > 0
    ensures a / b / c == a / (b * c)
  {
    var q := a / b;
    var q2 := q / c;
    SplitTwice(a, b, c, q, a % b, q2, q % c);
    DivUnique(a, b * c, q2, (q % c) * b + a % b);
  }

  /** Dividing by `b` and then by `c` leaves a remainder below `b * c`. */
  lemma SplitTwice(a: int, b: int, c: int, q: int, r: int, q2: int, r2: int)
    requires b > 0 && c > 0
    requires a == q * b + r && 0 <= r < b
    requires q == q2 * c + r2 && 0 <= r2 < c
    ensures a == q2 * (b * c) + (r2 * b + r)
    ensures 0 <= r2 * b + r < b * c
  {
    Distribute(q2, c, r2, b);
    BelowProduct(r2, c, b);
  }

  lemma Distribute(x: int, c: int, y: int, b: int)
    ensures (x * c + y) * b == x * (b * c) + y * b
  {
  }

  lemma BelowProduct(r2: int, c: int, b: int)
    requires 0 <= r2 < c && b > 0
    ensures 0 <= r2 * b <= b * c - b
  {
    MulNonNegative(r2, b);
    MulNonNegative(c - 1 - r2, b);
    assert (c - 1 - r2) * b == b * c - b - r2 * b;
  }

  lemma {:induction false} MulNonNegative(x: int, y: int)
    requires x >= 0 && y >= 0
    ensures x * y >= 0
    decreases x
  {
    if x > 0 {
      MulNonNegative(x - 1, y);
      assert x * y == (x - 1) * y + y;
    }
  }

  lemma MulAtLeast(k: int, d: int)
    requires k >= 1 && d > 0
    ensures k * d >= d
  {
    if k > 1 {
      MulAtLeast(k - 1, d);
      assert k * d == (k - 1) * d + d;
    }
  }

  lemma DivUnique(a: int, d: int, q: int, r: int)
    requires d > 0 && a == q * d + r && 0 <= r < d
    ensures a / d == q
  {
    var q' := a / d;
    var r' := a % d;
    assert a == q' * d + r';
    if q' < q {
      assert (q - q') * d == q * d - q' * d;
      MulAtLeast(q - q', d);
    } else if q' > q {
      assert (q' - q) * d == q' * d - q * d;
      MulAtLeast(q' - q, d);
    }
  }

  /** 1024^7 exceeds every int64, so the unit index never leaves "KMGTPE". */
  lemma Pow1024Seven()
    ensures Pow1024(7) > Int64.TWO_63
  {
  }

  lemma Pow1024Monotone(a: nat, b: nat)
    requires a <= b
    ensures Pow1024(a) <= Pow1024(b)
    decreases b
  {
    if a < b { Pow1024Monotone(a, b - 1); }
  }

  /**
   * `formatBytes`: sizes below 1024 as "<n> B"; otherwise the scale loop ends
   * with `div == 1024^(exp+1)` and `1 <= bytes / div < 1024`.
   */
  method FormatBytes(bytes: int) returns (d: ByteDisplay)
    requires Int64.InRange(bytes)
    ensures bytes < 1024 ==> d == Plain(IntToString(bytes) + " B")
    ensures bytes >= 1024 ==>
              exists exp: nat :: exp <= 5 && d == Scaled(bytes, Pow1024(exp + 1), "KMGTPE"[exp]) &&
                                 1 <= bytes / Pow1024(exp + 1) < 1024
  {
    if bytes < 1024 {
      return Plain(IntToString(bytes) + " B");
    }
    var div := 1024;
    var exp: nat := 0;
    var n := bytes / 1024;
    while n >= 1024
      invariant div == Pow1024(exp + 1) && n == bytes / div && n >= 1 && bytes >= div
      decreases n
    {
      DivDiv(bytes, div, 1024);
      div := div * 1024;
      exp := exp + 1;
      n := n / 1024;
    }
    if exp > 5 {
      Pow1024Monotone(7, exp + 1);
      Pow1024Seven();
      assert false;
    }
    return Scaled(bytes, div, "KMGTPE"[exp]);
  }

  // ---------------------------------------------------------------- symbols and text

  /** `healthSymbol`, case-insensitive. */
  function HealthSymbol(health: string): (r: string)
    ensures r == "✓" <==> ToLower(health) in {"up", "healthy", "ok", "firing"}
    ensures r == "✗" <==> ToLower(health) in {"down", "unhealthy", "error"}
    ensures r in {"✓", "✗", "⚠"}
  {
    var h := ToLower(health);
    if h in {"up", "healthy", "ok", "firing"} then "✓"
    else if h in {"down", "unhealthy", "error"} then "✗"
    else "⚠"
  }

  /** `severitySymbol`, case-insensitive. */
  function SeveritySymbol(severity: string): (r: string)
    ensures r == "✗" <==> ToLower(severity) == "critical"
    ensures r == "⚠" <==> ToLower(severity) == "warning"
    ensures r == "ℹ" <==> ToLower(severity) == "info"
    ensures r in {"✗", "⚠", "ℹ", "•"}
  {
    match ToLower(severity)
    case "critical" => "✗"
    case "warning" => "⚠"
    case "info" => "ℹ"
    case _ => "•"
  }

  /** `statusSymbol`, case-insensitive. */
  function StatusSymbol(state: string): (r: string)
    ensures r == "✗" <==> ToLower(state) == "firing"
    ensures r == "⚠" <==> ToLower(state) == "pending"
    ensures r == "○" <==> ToLower(state) == "inactive"
    ensures r in {"✗", "⚠", "○", "•"}
  {
    match ToLower(state)
    case "firing" => "✗"
    case "pending" => "⚠"
    case "inactive" => "○"
    case _ => "•"
  }

  /** The three symbol switches ignore case and answer every input, falling back to a fixed symbol. */
  lemma SymbolsIgnoreCase(s: string, t: string)
    requires EqualFold(s, t)
    ensures HealthSymbol(s) == HealthSymbol(t)
    ensures SeveritySymbol(s) == SeveritySymbol(t)
    ensures StatusSymbol(s) == StatusSymbol(t)
    ensures HealthSymbol(s) in {"✓", "✗", "⚠"}
    ensures SeveritySymbol(s) in {"✗", "⚠", "ℹ", "•"}
    ensures StatusSymbol(s) in {"✗", "⚠", "○", "•"}
  {
  }

  lemma SymbolsOfUpperCase()
    ensures HealthSymbol("UP") == "✓" && SeveritySymbol("Critical") == "✗" && StatusSymbol("FIRING") == "✗"
  {
    assert ToLower("UP") == "up";
    assert ToLower("Critical") == "critical";
    assert ToLower("FIRING") == "firing";
  }

  /**
   * `truncate` of the monitoring reports: the string itself when it fits,
   * a bare cut when `maxLen <= 3`, else a cut with "..." appended. A
   * negative `maxLen` makes the Go slice expression panic.
   */
  function Truncate(s: string, maxLen: int): (r: string)
    requires maxLen >= 0
    ensures |r| <= maxLen || r == s
    ensures |s| <= maxLen ==> r == s
    ensures |s| > maxLen && maxLen <= 3 ==> r == s[..maxLen]
    ensures |s| > maxLen > 3 ==> r == s[..maxLen - 3] + "..." && |r| == maxLen
  {
    if |s| <= maxLen then s
    else if maxLen <= 3 then s[..maxLen]
    else s[..maxLen - 3] + "..."
  }

  /** `getSeverity`: the "severity" label, "unknown" without one. */
  function Severity(labels: map<string, string>): (s: string)
    ensures "severity" in labels ==> s == labels["severity"]
    ensures "severity" !in labels ==> s == "unknown"
  {
    if "severity" in labels then labels["severity"] else "unknown"
  }

  /** `getNamespace`: the "namespace" label, "" without one. */
  function LabelNamespace(labels: map<string, string>): (s: string)
    ensures "namespace" in labels ==> s == labels["namespace"]
    ensures "namespace" !in labels ==> s == ""
  {
    if "namespace" in labels then labels["namespace"] else ""
  }

  /** `getJob`: the "job" label, "" without one. */
  function Job(labels: map<string, string>): (s: string)
    ensures "job" in labels ==> s == labels["job"]
    ensures "job" !in labels ==> s == ""
  {
    if "job" in labels then labels["job"] else ""
  }

  /**
   * `parseGVK`: the group and version of `apiVersion` as `schema.ParseGroupVersion`
   * reads them; an unparsable one becomes the version of the core group.
   */
  function ParseGVK(apiVersion: string, kind: string): (g: Unstructured.GVK)
    ensures g.kind == kind
    ensures Unstructured.ParseGroupVersion(apiVersion).None? ==> g.group == "" && g.version == apiVersion
    ensures '/' !in apiVersion ==> g.group == "" && g.version == apiVersion
  {
    match Unstructured.ParseGroupVersion(apiVersion)
    case Some((group, version)) => Unstructured.GVK(group, version, kind)
    case None => Unstructured.GVK("", apiVersion, kind)
  }

  /** A group-version printed the Kubernetes way parses back to its parts. */
  lemma ParseGVKRoundTrip(group: string, version: string, kind: string)
    requires '/' !in group && '/' !in version && version != ""
    ensures ParseGVK(Unstructured.GroupVersionString(group, version), kind) == Unstructured.GVK(group, version, kind)
  {
    Unstructured.GroupVersionRoundTrip(group, version);
  }
}
