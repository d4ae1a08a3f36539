/**
 * The search over "status.conditions" that the cluster and network tools
 * repeat: the first condition that is a mapping, has the wanted "type" and
 * holds a string under the wanted field decides.
 */
module Conditions {
  import opened Wrappers
  import opened Unstructured

  /** Condition `c` has type `condType` and a string under `field`. */
  predicate Matches(c: Value, condType: string, field: string) {
    c.VMap? && "type" in c.fields && c.fields["type"] == VStr(condType) &&
    field in c.fields && c.fields[field].VStr?
  }

  /** The `field` of the first matching condition. */
  function ConditionField(conditions: seq<Value>, condType: string, field: string): Option<string>
  {
    if |conditions| == 0 then None
    else if Matches(conditions[0], condType, field) then Some(conditions[0].fields[field].str)
    else ConditionField(conditions[1..], condType, field)
  }

  /**
   * The search finds a value exactly when some condition matches, and then it
   * is the field of a matching condition before which none matches.
   */
  lemma {:induction false} ConditionFieldFirst(conditions: seq<Value>, condType: string, field: string)
    ensures ConditionField(conditions, condType, field).Some? <==>
              exists i :: 0 <= i < |conditions| && Matches(conditions[i], condType, field)
    ensures ConditionField(conditions, condType, field).Some? ==>
              exists i :: 0 <= i < |conditions| && Matches(conditions[i], condType, field) &&
                          conditions[i].fields[field].str == ConditionField(conditions, condType, field).value &&
                          forall j :: 0 <= j < i ==> !Matches(conditions[j], condType, field)
  {
    if |conditions| > 0 && !Matches(conditions[0], condType, field) {
      var rest := conditions[1..];
      ConditionFieldFirst(rest, condType, field);
      if exists i :: 0 <= i < |conditions| && Matches(conditions[i], condType, field) {
        var i :| 0 <= i < |conditions| && Matches(conditions[i], condType, field);
        assert rest[i - 1] == conditions[i];
      }
      if ConditionField(rest, condType, field).Some? {
        var i :| 0 <= i < |rest| && Matches(rest[i], condType, field) &&
                 rest[i].fields[field].str == ConditionField(rest, condType, field).value &&
                 forall j :: 0 <= j < i ==> !Matches(rest[j], condType, field);
        assert conditions[i + 1] == rest[i];
        forall j | 0 <= j < i + 1 ensures !Matches(conditions[j], condType, field) {
          if j > 0 { assert conditions[j] == rest[j - 1]; }
        }
      }
    }
  }

  /** The "status.conditions" list of an object, when it is one. */
  function StatusConditions(obj: Object): Option<seq<Value>> {
    NestedSlice(obj, ["status", "conditions"])
  }

  /**
   * `getConditionStatus` / `getConnectivityCondition`: the string status of
   * the first condition of the type that has one, else "Unknown".
   */
  function ConditionStatus(obj: Object, condType: string): (s: string)
    ensures StatusConditions(obj).None? ==> s == "Unknown"
    ensures StatusConditions(obj).Some? && ConditionField(StatusConditions(obj).value, condType, "status").Some? ==>
              s == ConditionField(StatusConditions(obj).value, condType, "status").value
    ensures StatusConditions(obj).Some? && ConditionField(StatusConditions(obj).value, condType, "status").None? ==>
              s == "Unknown"
  {
    match StatusConditions(obj)
    case None => "Unknown"
    case Some(conds) =>
      match ConditionField(conds, condType, "status")
      case Some(st) => st
      case None => "Unknown"
  }

  /** Equal statuses come from the first condition of the type whose status is a string, if any. */
  lemma ConditionStatusMeaning(obj: Object, condType: string)
    ensures ConditionStatus(obj, condType) != "Unknown" ==>
              StatusConditions(obj).Some? &&
              var conds := StatusConditions(obj).value;
              exists i :: 0 <= i < |conds| && Matches(conds[i], condType, "status") &&
                          conds[i].fields["status"] == VStr(ConditionStatus(obj, condType)) &&
                          forall j :: 0 <= j < i ==> !Matches(conds[j], condType, "status")
  {
    if StatusConditions(obj).Some? {
      ConditionFieldFirst(StatusConditions(obj).value, condType, "status");
    }
  }
}
