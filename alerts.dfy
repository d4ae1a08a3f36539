/**
 * The rule and alert reports built from the rules.json document of the
 * Prometheus data: `monitoring_prometheus_rules` filters groups and rules and
 * counts them; `monitoring_prometheus_alerts` collects the alerts of alerting
 * rules, counts them by severity and state, and orders them.
 */
module Alerts {
  import opened Wrappers
  import opened Text
  import opened Seqs
  import opened FileTree
  import opened MonitoringHelpers
  import Loader

  datatype Alert = Alert(labels: map<string, string>, annotations: map<string, string>, state: string, activeAt: string)

  datatype Rule = Rule(
    name: string,
    labels: map<string, string>,
    alerts: seq<Alert>,
    health: string,
    ruleType: string,
    lastError: string)

  datatype RuleGroup = RuleGroup(name: string, file: string, rules: seq<Rule>)

  /** containerDir/monitoring/prometheus/rules.json, shared by both reports. */
  function RulesFile(containerDir: Path): Path {
    PrometheusCommonPath(containerDir) + ["rules.json"]
  }

  // ---------------------------------------------------------------- rules report

  /** The arguments of `monitoring_prometheus_rules`, after their defaults. */
  datatype RuleArgs = RuleArgs(ruleType: string, group: string, health: string)

  /** The health filter of the rules listing, branch by branch. */
  predicate HealthPasses(filter: string, health: string) {
    if filter == "all" then true
    else if filter == "ok" && health != "ok" then false
    else if filter == "err" && health != "err" then false
    else if filter == "unknown" && health != "unknown" then false
    else true
  }

  /** Only the three known filter values restrict anything; each keeps exactly its own health. */
  lemma HealthFilterMeaning(filter: string, health: string)
    ensures HealthPasses(filter, health) <==> filter !in {"ok", "err", "unknown"} || health == filter
  {
  }

  predicate RulePasses(r: Rule, args: RuleArgs) {
    (args.ruleType == "all" || r.ruleType == args.ruleType) && HealthPasses(args.health, r.health)
  }

  function RuleFilter(args: RuleArgs): Rule -> bool { (r: Rule) => RulePasses(r, args) }

  function KeptRules(g: RuleGroup, args: RuleArgs): seq<Rule> { Filter(g.rules, RuleFilter(args)) }

  /** The groups the listing keeps, in file order: a name that passes the filter and some surviving rule, holding only those rules. */
  function ListedGroups(groups: seq<RuleGroup>, args: RuleArgs): seq<RuleGroup> {
    if |groups| == 0 then []
    else
      var g := groups[|groups| - 1];
      ListedGroups(groups[..|groups| - 1], args) +
      (if ContainsFold(g.name, args.group) && |KeptRules(g, args)| > 0 then [g.(rules := KeptRules(g, args))] else [])
  }

  /** The rules the counters see: the surviving rules of every group whose name passes the filter. */
  function CountedRules(groups: seq<RuleGroup>, args: RuleArgs): seq<Rule> {
    if |groups| == 0 then []
    else
      var g := groups[|groups| - 1];
      CountedRules(groups[..|groups| - 1], args) + (if ContainsFold(g.name, args.group) then KeptRules(g, args) else [])
  }

  lemma GroupsStep(groups: seq<RuleGroup>, i: int, args: RuleArgs)
    requires 0 <= i < |groups|
    ensures ListedGroups(groups[..i + 1], args) ==
            ListedGroups(groups[..i], args) +
            (if ContainsFold(groups[i].name, args.group) && |KeptRules(groups[i], args)| > 0
             then [groups[i].(rules := KeptRules(groups[i], args))] else [])
    ensures CountedRules(groups[..i + 1], args) ==
            CountedRules(groups[..i], args) + (if ContainsFold(groups[i].name, args.group) then KeptRules(groups[i], args) else [])
  {
    assert groups[..i + 1][..i] == groups[..i];
  }

  /** The rules of `groups`, group after group. */
  function RulesOf(groups: seq<RuleGroup>): seq<Rule> {
    if |groups| == 0 then [] else RulesOf(groups[..|groups| - 1]) + groups[|groups| - 1].rules
  }

  lemma {:induction false} RulesOfAppend(a: seq<RuleGroup>, b: seq<RuleGroup>)
    ensures RulesOf(a + b) == RulesOf(a) + RulesOf(b)
    decreases |b|
  {
    if |b| == 0 {
      assert a + b == a;
    } else {
      assert (a + b)[..|a + b| - 1] == a + b[..|b| - 1];
      RulesOfAppend(a, b[..|b| - 1]);
    }
  }

  /** The five counters of the rules report. */
  datatype RuleStats = RuleStats(total: nat, alerting: nat, recording: nat, healthy: nat, errors: nat)

  /** The counter updates for one surviving rule. */
  function Tick(st: RuleStats, r: Rule): RuleStats {
    RuleStats(
      st.total + 1,
      st.alerting + (if r.ruleType == "alerting" then 1 else 0),
      st.recording + (if r.ruleType == "alerting" then 0 else 1),
      st.healthy + (if r.health == "ok" then 1 else 0),
      st.errors + (if r.health == "err" then 1 else 0))
  }

  function StatsOf(rules: seq<Rule>): RuleStats {
    if |rules| == 0 then RuleStats(0, 0, 0, 0, 0) else Tick(StatsOf(rules[..|rules| - 1]), rules[|rules| - 1])
  }

  lemma StatsSnoc(rules: seq<Rule>, r: Rule)
    ensures StatsOf(rules + [r]) == Tick(StatsOf(rules), r)
  {
    assert (rules + [r])[..|rules|] == rules;
  }

  predicate IsAlertingRule(r: Rule) { r.ruleType == "alerting" }

  predicate IsOkRule(r: Rule) { r.health == "ok" }

  predicate IsErrRule(r: Rule) { r.health == "err" }

  /**
   * What the counters mean: `total` counts the rules; `alerting` those of
   * type "alerting" and `recording` every other; `healthy` and `errors` those
   * whose health is "ok" and "err".
   */
  lemma {:induction false} StatsMeaning(rules: seq<Rule>)
    ensures StatsOf(rules).total == |rules|
    ensures StatsOf(rules).alerting == |Filter(rules, IsAlertingRule)|
    ensures StatsOf(rules).total == StatsOf(rules).alerting + StatsOf(rules).recording
    ensures StatsOf(rules).healthy == |Filter(rules, IsOkRule)|
    ensures StatsOf(rules).errors == |Filter(rules, IsErrRule)|
    ensures StatsOf(rules).healthy + StatsOf(rules).errors <= StatsOf(rules).total
    decreases |rules|
  {
    if |rules| > 0 {
      StatsMeaning(rules[..|rules| - 1]);
    }
  }

  predicate GroupLess(a: RuleGroup, b: RuleGroup) { LexLess(a.name, b.name) }

  lemma GroupOrderStrict()
    ensures StrictWeakOrder(GroupLess)
  {
    forall x: RuleGroup, y: RuleGroup, z: RuleGroup | !GroupLess(x, y) && !GroupLess(y, x) && !GroupLess(y, z) && !GroupLess(z, y)
      ensures !GroupLess(x, z) && !GroupLess(z, x)
    {
      LexIncomparable(x.name, y.name);
      LexIncomparable(y.name, z.name);
    }
    forall x: RuleGroup ensures !GroupLess(x, x) {
      LexLessIrreflexive(x.name);
    }
    forall x: RuleGroup, y: RuleGroup, z: RuleGroup | GroupLess(x, y) && GroupLess(y, z) ensures GroupLess(x, z) {
      LexLessTransitive(x.name, y.name, z.name);
    }
  }

  /** Every listed group passed the group filter, is not empty and holds only surviving rules. */
  lemma {:induction false} ListedGroupsValid(groups: seq<RuleGroup>, args: RuleArgs)
    ensures forall g :: g in ListedGroups(groups, args) ==>
              ContainsFold(g.name, args.group) && |g.rules| > 0 &&
              forall r :: r in g.rules ==> RulePasses(r, args)
    decreases |groups|
  {
    if |groups| > 0 {
      var init := groups[..|groups| - 1];
      ListedGroupsValid(init, args);
      var last := groups[|groups| - 1];
      forall r | r in KeptRules(last, args) ensures RulePasses(r, args) {
        var k :| 0 <= k < |KeptRules(last, args)| && KeptRules(last, args)[k] == r;
        assert RuleFilter(args)(r);
      }
    }
  }

  /** The counters see exactly the rules of the listed groups: a group whose rules all fail adds nothing to them. */
  lemma {:induction false} CountedAreListed(groups: seq<RuleGroup>, args: RuleArgs)
    ensures CountedRules(groups, args) == RulesOf(ListedGroups(groups, args))
    decreases |groups|
  {
    if |groups| > 0 {
      var init := groups[..|groups| - 1];
      var g := groups[|groups| - 1];
      CountedAreListed(init, args);
      var entry := if ContainsFold(g.name, args.group) && |KeptRules(g, args)| > 0 then [g.(rules := KeptRules(g, args))] else [];
      RulesOfAppend(ListedGroups(init, args), entry);
      if entry != [] {
        assert RulesOf(entry) == RulesOf([]) + entry[0].rules by { assert entry[..0] == []; }
      }
    }
  }

  datatype RulesReport = RulesReport(groups: seq<RuleGroup>, stats: RuleStats)

  /** The inner loop of `prometheusRules`: the surviving rules of one group, each counted. */
  method KeepRules(rules: seq<Rule>, args: RuleArgs, ghost before: seq<Rule>, stats: RuleStats)
    returns (kept: seq<Rule>, stats': RuleStats)
    requires stats == StatsOf(before)
    ensures kept == Filter(rules, RuleFilter(args))
    ensures stats' == StatsOf(before + kept)
  {
    kept, stats' := [], stats;
    assert before + kept == before;
    for j := 0 to |rules|
      invariant kept == Filter(rules[..j], RuleFilter(args))
      invariant stats' == StatsOf(before + kept)
    {
      var r := rules[j];
      FilterStep(rules, j, RuleFilter(args));
      if RulePasses(r, args) {
        StatsSnoc(before + kept, r);
        assert before + (kept + [r]) == (before + kept) + [r];
        kept := kept + [r];
        stats' := Tick(stats', r);
      }
    }
    assert rules[..|rules|] == rules;
  }

  /** The group loop of `prometheusRules`: surviving groups with their surviving rules, and the counters. */
  method FilterGroups(groups: seq<RuleGroup>, args: RuleArgs) returns (filtered: seq<RuleGroup>, stats: RuleStats)
    ensures filtered == ListedGroups(groups, args)
    ensures stats == StatsOf(CountedRules(groups, args))
  {
    filtered := [];
    stats := RuleStats(0, 0, 0, 0, 0);
    for i := 0 to |groups|
      invariant filtered == ListedGroups(groups[..i], args)
      invariant stats == StatsOf(CountedRules(groups[..i], args))
    {
      var g := groups[i];
      GroupsStep(groups, i, args);
      if ContainsFold(g.name, args.group) {
        var kept;
        kept, stats := KeepRules(g.rules, args, CountedRules(groups[..i], args), stats);
        if |kept| > 0 {
          filtered := filtered + [g.(rules := kept)];
        }
      } else {
        assert CountedRules(groups[..i], args) + [] == CountedRules(groups[..i], args);
      }
    }
    assert groups[..|groups|] == groups;
  }

  /** `prometheusRules`: a read failure is the tool's error; otherwise the listed groups sorted by name and the counters. */
  method PrometheusRules(root: Node, mg: Path, args: RuleArgs, decode: string -> Option<seq<RuleGroup>>)
    returns (r: Result<RulesReport, JSONError>)
    ensures var read := ReadJSON(root, RulesFile(Loader.ContainerDir(root, mg)), decode);
            (read.Err? ==> r == Err(read.error)) &&
            (read.Ok? ==>
               r.Ok? &&
               multiset(r.value.groups) == multiset(ListedGroups(read.value, args)) &&
               SortedBy(r.value.groups, GroupLess) &&
               r.value.stats == StatsOf(CountedRules(read.value, args)))
  {
    var found := Loader.FindContainerDir(root, mg);
    var dir := if found.Ok? then found.value else mg;
    assert dir == Loader.ContainerDir(root, mg);
    var read := ReadJSON(root, RulesFile(dir), decode);
    if read.Err? {
      return Err(read.error);
    }
    var filtered, stats := FilterGroups(read.value, args);
    GroupOrderStrict();
    var sorted := SortBy(filtered, GroupLess);
    return Ok(RulesReport(sorted, stats));
  }

  // ---------------------------------------------------------------- alerts report

  /** The arguments of `monitoring_prometheus_alerts`, after their defaults. */
  datatype AlertArgs = AlertArgs(severity: string, state: string, namespace: string)

  /** A collected alert with the rule and group it came from and the rule's severity. */
  datatype AlertWithRule = AlertWithRule(alert: Alert, ruleName: string, groupName: string, severity: string)

  predicate AlertPasses(a: Alert, severity: string, args: AlertArgs) {
    (args.severity == "all" || severity == args.severity) &&
    (args.state == "all" || a.state == args.state) &&
    ContainsFold(LabelNamespace(a.labels), args.namespace)
  }

  /** The alerts of rule `r` (among `alerts`) that pass the filters, as collected items. */
  function RuleAlertItems(groupName: string, r: Rule, alerts: seq<Alert>, args: AlertArgs): seq<AlertWithRule> {
    if |alerts| == 0 then []
    else
      var a := alerts[|alerts| - 1];
      RuleAlertItems(groupName, r, alerts[..|alerts| - 1], args) +
      (if AlertPasses(a, Severity(r.labels), args) then [AlertWithRule(a, r.name, groupName, Severity(r.labels))] else [])
  }

  /** The alerts a rule contributes: none unless it is an alerting rule. */
  function RuleItems(groupName: string, r: Rule, args: AlertArgs): seq<AlertWithRule> {
    if r.ruleType != "alerting" then [] else RuleAlertItems(groupName, r, r.alerts, args)
  }

  function GroupItems(groupName: string, rules: seq<Rule>, args: AlertArgs): seq<AlertWithRule> {
    if |rules| == 0 then [] else GroupItems(groupName, rules[..|rules| - 1], args) + RuleItems(groupName, rules[|rules| - 1], args)
  }

  /** Every alert the collection loops keep, in file order. */
  function AllItems(groups: seq<RuleGroup>, args: AlertArgs): seq<AlertWithRule> {
    if |groups| == 0 then []
    else AllItems(groups[..|groups| - 1], args) + GroupItems(groups[|groups| - 1].name, groups[|groups| - 1].rules, args)
  }

  /**
   * The `severityCounts` and `stateCounts` maps as multisets: a Go
   * `map[string]int` counter incremented once per item, since a missing key
   * reads as 0 in both.
   */
  function SeverityBag(items: seq<AlertWithRule>): (b: multiset<string>)
    ensures |b| == |items|
  {
    if |items| == 0 then multiset{} else SeverityBag(items[..|items| - 1]) + multiset{items[|items| - 1].severity}
  }

  function StateBag(items: seq<AlertWithRule>): (b: multiset<string>)
    ensures |b| == |items|
  {
    if |items| == 0 then multiset{} else StateBag(items[..|items| - 1]) + multiset{items[|items| - 1].alert.state}
  }

  lemma BagsSnoc(items: seq<AlertWithRule>, item: AlertWithRule)
    ensures SeverityBag(items + [item]) == SeverityBag(items) + multiset{item.severity}
    ensures StateBag(items + [item]) == StateBag(items) + multiset{item.alert.state}
  {
    assert (items + [item])[..|items|] == items;
  }

  lemma RuleAlertItemsStep(groupName: string, r: Rule, k: int, args: AlertArgs)
    requires 0 <= k < |r.alerts|
    ensures RuleAlertItems(groupName, r, r.alerts[..k + 1], args) ==
            RuleAlertItems(groupName, r, r.alerts[..k], args) +
            (if AlertPasses(r.alerts[k], Severity(r.labels), args)
             then [AlertWithRule(r.alerts[k], r.name, groupName, Severity(r.labels))] else [])
  {
    assert r.alerts[..k + 1][..k] == r.alerts[..k];
  }

  lemma {:induction false} RuleAlertItemsFrom(groupName: string, r: Rule, alerts: seq<Alert>, args: AlertArgs, item: AlertWithRule)
    requires item in RuleAlertItems(groupName, r, alerts, args)
    ensures item.alert in alerts && item.groupName == groupName && item.ruleName == r.name &&
            item.severity == Severity(r.labels) && AlertPasses(item.alert, item.severity, args)
    decreases |alerts|
  {
    var init := alerts[..|alerts| - 1];
    if item in RuleAlertItems(groupName, r, init, args) {
      RuleAlertItemsFrom(groupName, r, init, args, item);
    }
  }

  lemma {:induction false} GroupItemsFrom(groupName: string, rules: seq<Rule>, args: AlertArgs, item: AlertWithRule)
    requires item in GroupItems(groupName, rules, args)
    ensures exists r :: r in rules && r.ruleType == "alerting" &&
              item.alert in r.alerts && item.groupName == groupName && item.ruleName == r.name &&
              item.severity == Severity(r.labels) && AlertPasses(item.alert, item.severity, args)
    decreases |rules|
  {
    var init := rules[..|rules| - 1];
    var last := rules[|rules| - 1];
    if item in GroupItems(groupName, init, args) {
      GroupItemsFrom(groupName, init, args, item);
      var r :| r in init && r.ruleType == "alerting" &&
                item.alert in r.alerts && item.groupName == groupName && item.ruleName == r.name &&
                item.severity == Severity(r.labels) && AlertPasses(item.alert, item.severity, args);
      assert r in rules;
    } else {
      RuleAlertItemsFrom(groupName, last, last.alerts, args, item);
    }
  }

  /** Every collected alert belongs to an alerting rule of some group, carries that rule's severity and passed the filters. */
  lemma {:induction false} CollectedFromAlertingRules(groups: seq<RuleGroup>, args: AlertArgs, item: AlertWithRule)
    requires item in AllItems(groups, args)
    ensures exists g, r :: g in groups && r in g.rules && r.ruleType == "alerting" &&
              item.alert in r.alerts && item.groupName == g.name && item.ruleName == r.name &&
              item.severity == Severity(r.labels) && AlertPasses(item.alert, item.severity, args)
    decreases |groups|
  {
    var init := groups[..|groups| - 1];
    var g := groups[|groups| - 1];
    if item in AllItems(init, args) {
      CollectedFromAlertingRules(init, args, item);
      var g', r :| g' in init && r in g'.rules && r.ruleType == "alerting" &&
                   item.alert in r.alerts && item.groupName == g'.name && item.ruleName == r.name &&
                   item.severity == Severity(r.labels) && AlertPasses(item.alert, item.severity, args);
      assert g' in groups;
    } else {
      GroupItemsFrom(g.name, g.rules, args, item);
    }
  }

  /** The rank of a severity in the alert order; a severity the table does not know reads as 0, like "critical". */
  function SeverityRank(severity: string): nat {
    if severity == "warning" then 1
    else if severity == "info" then 2
    else if severity == "unknown" then 3
    else 0
  }

  /** The `sort.Slice` comparator of the alerts listing, as written. */
  predicate AlertLessAsWritten(a: AlertWithRule, b: AlertWithRule)
    ensures SeverityRank(a.severity) < SeverityRank(b.severity) ==> AlertLessAsWritten(a, b)
    ensures SeverityRank(a.severity) == SeverityRank(b.severity) && a.alert.state != b.alert.state ==>
              (AlertLessAsWritten(a, b) <==> a.alert.state == "firing")
    ensures SeverityRank(a.severity) == SeverityRank(b.severity) && a.alert.state == b.alert.state ==>
              (AlertLessAsWritten(a, b) <==> LexLess(a.ruleName, b.ruleName))
  {
    if SeverityRank(a.severity) != SeverityRank(b.severity) then SeverityRank(a.severity) < SeverityRank(b.severity)
    else if a.alert.state != b.alert.state then a.alert.state == "firing"
    else LexLess(a.ruleName, b.ruleName)
  }

  function WithState(severity: string, state: string, ruleName: string): AlertWithRule {
    AlertWithRule(Alert(map[], map[], state, ""), ruleName, "", severity)
  }

  /**
   * Two non-firing alerts in different states are incomparable whatever
   * their rule names, so being incomparable is not transitive: `a` and `c`
   * are ordered by name, yet each is incomparable with `b`. Go's `sort` may
   * then leave `c` after `a` (its insertion sort does on [a, b, c]).
   */
  lemma AlertOrderNotWeak()
    ensures var a := WithState("critical", "pending", "z");
            var b := WithState("critical", "inactive", "m");
            var c := WithState("critical", "pending", "a");
            AlertLessAsWritten(c, a) &&
            !AlertLessAsWritten(a, b) && !AlertLessAsWritten(b, a) &&
            !AlertLessAsWritten(b, c) && !AlertLessAsWritten(c, b) &&
            !StrictWeakOrder(AlertLessAsWritten)
  {
    var a := WithState("critical", "pending", "z");
    var b := WithState("critical", "inactive", "m");
    var c := WithState("critical", "pending", "a");
    assert LexLess("a", "z");
    assert AlertLessAsWritten(c, a);
  }

  /** Firing alerts first within a severity: 0 for "firing", 1 for any other state. */
  function FiringRank(state: string): nat { if state == "firing" then 0 else 1 }

  /** The intended order: severity rank, then firing before every other state, then rule name. */
  predicate AlertLess(a: AlertWithRule, b: AlertWithRule)
    ensures SeverityRank(a.severity) < SeverityRank(b.severity) ==> AlertLess(a, b)
    ensures SeverityRank(a.severity) == SeverityRank(b.severity) && a.alert.state == "firing" && b.alert.state != "firing" ==>
              AlertLess(a, b)
    ensures SeverityRank(a.severity) == SeverityRank(b.severity) && FiringRank(a.alert.state) == FiringRank(b.alert.state) ==>
              (AlertLess(a, b) <==> LexLess(a.ruleName, b.ruleName))
  {
    if SeverityRank(a.severity) != SeverityRank(b.severity) then SeverityRank(a.severity) < SeverityRank(b.severity)
    else if FiringRank(a.alert.state) != FiringRank(b.alert.state) then a.alert.state == "firing"
    else LexLess(a.ruleName, b.ruleName)
  }

  /** Two alerts are incomparable exactly when they agree on severity rank, firing rank and rule name. */
  lemma AlertIncomparable(a: AlertWithRule, b: AlertWithRule)
    ensures !AlertLess(a, b) && !AlertLess(b, a) <==>
              SeverityRank(a.severity) == SeverityRank(b.severity) &&
              FiringRank(a.alert.state) == FiringRank(b.alert.state) &&
              a.ruleName == b.ruleName
  {
    if a.ruleName != b.ruleName {
      LexLessTotal(a.ruleName, b.ruleName);
    } else {
      LexLessIrreflexive(a.ruleName);
    }
  }

  lemma AlertOrderWeak()
    ensures StrictWeakOrder(AlertLess)
  {
    forall x: AlertWithRule ensures !AlertLess(x, x) {
      LexLessIrreflexive(x.ruleName);
    }
    forall x: AlertWithRule, y: AlertWithRule, z: AlertWithRule | AlertLess(x, y) && AlertLess(y, z)
      ensures AlertLess(x, z)
    {
      if SeverityRank(x.severity) == SeverityRank(y.severity) == SeverityRank(z.severity) &&
         FiringRank(x.alert.state) == FiringRank(y.alert.state) == FiringRank(z.alert.state) {
        LexLessTransitive(x.ruleName, y.ruleName, z.ruleName);
      }
    }
    forall x: AlertWithRule, y: AlertWithRule, z: AlertWithRule
      | !AlertLess(x, y) && !AlertLess(y, x) && !AlertLess(y, z) && !AlertLess(z, y)
      ensures !AlertLess(x, z) && !AlertLess(z, x)
    {
      AlertIncomparable(x, y);
      AlertIncomparable(y, z);
      AlertIncomparable(x, z);
    }
  }

  /** On alerts that are firing or pending, the only states Prometheus lists for a rule, both comparators agree. */
  lemma AlertLessAgrees(a: AlertWithRule, b: AlertWithRule)
    requires a.alert.state in {"firing", "pending"} && b.alert.state in {"firing", "pending"}
    ensures AlertLess(a, b) == AlertLessAsWritten(a, b)
  {
  }

  datatype AlertsReport = AlertsReport(
    severityCounts: multiset<string>,
    stateCounts: multiset<string>,
    alerts: seq<AlertWithRule>)

  lemma GroupItemsStep(groupName: string, rules: seq<Rule>, j: int, args: AlertArgs)
    requires 0 <= j < |rules|
    ensures GroupItems(groupName, rules[..j + 1], args) == GroupItems(groupName, rules[..j], args) + RuleItems(groupName, rules[j], args)
  {
    assert rules[..j + 1][..j] == rules[..j];
  }

  /** The innermost loop: the alerts of one alerting rule, appended with their counters. */
  method CollectRule(groupName: string, r: Rule, args: AlertArgs,
                     items: seq<AlertWithRule>, sevCounts: multiset<string>, stateCounts: multiset<string>)
    returns (items': seq<AlertWithRule>, sevCounts': multiset<string>, stateCounts': multiset<string>)
    requires r.ruleType == "alerting"
    requires sevCounts == SeverityBag(items) && stateCounts == StateBag(items)
    ensures items' == items + RuleItems(groupName, r, args)
    ensures sevCounts' == SeverityBag(items') && stateCounts' == StateBag(items')
  {
    var severity := Severity(r.labels);
    items', sevCounts', stateCounts' := items, sevCounts, stateCounts;
    ghost var found: seq<AlertWithRule> := [];
    for k := 0 to |r.alerts|
      invariant found == RuleAlertItems(groupName, r, r.alerts[..k], args)
      invariant items' == items + found
      invariant sevCounts' == SeverityBag(items') && stateCounts' == StateBag(items')
    {
      var a := r.alerts[k];
      RuleAlertItemsStep(groupName, r, k, args);
      if AlertPasses(a, severity, args) {
        var item := AlertWithRule(a, r.name, groupName, severity);
        BagsSnoc(items', item);
        AppendAssoc(items, found, [item]);
        found := found + [item];
        items' := items' + [item];
        sevCounts' := sevCounts' + multiset{severity};
        stateCounts' := stateCounts' + multiset{a.state};
      } else {
        assert found + [] == found;
      }
    }
    assert r.alerts[..|r.alerts|] == r.alerts;
  }

  /** The rule loop: the alerts of one group's alerting rules, appended with their counters. */
  method CollectGroup(groupName: string, rules: seq<Rule>, args: AlertArgs,
                      items: seq<AlertWithRule>, sevCounts: multiset<string>, stateCounts: multiset<string>)
    returns (items': seq<AlertWithRule>, sevCounts': multiset<string>, stateCounts': multiset<string>)
    requires sevCounts == SeverityBag(items) && stateCounts == StateBag(items)
    ensures items' == items + GroupItems(groupName, rules, args)
    ensures sevCounts' == SeverityBag(items') && stateCounts' == StateBag(items')
  {
    items', sevCounts', stateCounts' := items, sevCounts, stateCounts;
    assert items + GroupItems(groupName, rules[..0], args) == items;
    for j := 0 to |rules|
      invariant items' == items + GroupItems(groupName, rules[..j], args)
      invariant sevCounts' == SeverityBag(items') && stateCounts' == StateBag(items')
    {
      var r := rules[j];
      GroupItemsStep(groupName, rules, j, args);
      ghost var prev := items';
      if r.ruleType == "alerting" {
        items', sevCounts', stateCounts' := CollectRule(groupName, r, args, items', sevCounts', stateCounts');
      } else {
        assert RuleItems(groupName, r, args) == [];
        assert items' == prev + [];
      }
      assert items' == prev + RuleItems(groupName, r, args);
      ghost var done := GroupItems(groupName, rules[..j], args);
      ghost var more := RuleItems(groupName, r, args);
      AppendAssoc(items, done, more);
    }
    assert rules[..|rules|] == rules;
  }

  /** The collection loops of `prometheusAlerts` over every group and rule. */
  method CollectAlerts(groups: seq<RuleGroup>, args: AlertArgs)
    returns (items: seq<AlertWithRule>, sevCounts: multiset<string>, stateCounts: multiset<string>)
    ensures items == AllItems(groups, args)
    ensures sevCounts == SeverityBag(items) && stateCounts == StateBag(items)
  {
    items, sevCounts, stateCounts := [], multiset{}, multiset{};
    for i := 0 to |groups|
      invariant items == AllItems(groups[..i], args)
      invariant sevCounts == SeverityBag(items) && stateCounts == StateBag(items)
    {
      assert groups[..i + 1][..i] == groups[..i];
      items, sevCounts, stateCounts := CollectGroup(groups[i].name, groups[i].rules, args, items, sevCounts, stateCounts);
    }
    assert groups[..|groups|] == groups;
  }

  /**
   * `prometheusAlerts`: a read failure is the tool's error; otherwise every
   * collected alert, counted by severity and by state (each tally sums to the
   * number of alerts) and sorted by the alert order.
   */
  method PrometheusAlerts(root: Node, mg: Path, args: AlertArgs, decode: string -> Option<seq<RuleGroup>>)
    returns (r: Result<AlertsReport, JSONError>)
    ensures var read := ReadJSON(root, RulesFile(Loader.ContainerDir(root, mg)), decode);
            (read.Err? ==> r == Err(read.error)) &&
            (read.Ok? ==>
               var all := AllItems(read.value, args);
               r.Ok? &&
               r.value.severityCounts == SeverityBag(all) &&
               r.value.stateCounts == StateBag(all) &&
               |r.value.severityCounts| == |all| && |r.value.stateCounts| == |all| &&
               multiset(r.value.alerts) == multiset(all) &&
               SortedBy(r.value.alerts, AlertLess))
  {
    var found := Loader.FindContainerDir(root, mg);
    var dir := if found.Ok? then found.value else mg;
    assert dir == Loader.ContainerDir(root, mg);
    var read := ReadJSON(root, RulesFile(dir), decode);
    if read.Err? {
      return Err(read.error);
    }
    var items, sevCounts, stateCounts := CollectAlerts(read.value, args);
    AlertOrderWeak();
    var sorted := SortBy(items, AlertLess);
    return Ok(AlertsReport(sevCounts, stateCounts, sorted));
  }
}
