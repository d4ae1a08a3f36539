/**
 * The tool-call plumbing every handler shares: the result record and the
 * argument getters that fall back to a default when an argument is missing
 * or has another type.
 */
module Api {
  import opened Wrappers

  /**
   * An argument as decoded from the call's JSON: a string, a bool, a Go
   * `int`, a `float64` (kept as the integer `int(v)` turns it into), or
   * anything else (null, a list, an object).
   */
  datatype Arg = AString(str: string) | ABool(b: bool) | AInt(i: int) | AFloat(whole: int) | AOther

  type Arguments = map<string, Arg>

  /** `ToolCallResult`: the text shown to the client, and the error, if any. */
  datatype ToolCallResult = ToolCallResult(content: string, error: Option<string>)

  function NewToolCallResult(content: string, err: Option<string>): (r: ToolCallResult)
    ensures r.content == content && r.error == err
  {
    ToolCallResult(content, err)
  }

  /** `GetString`: the argument when it is present and a string, else the default. */
  function GetString(args: Arguments, key: string, defaultValue: string): (r: string)
    ensures key in args && args[key].AString? ==> r == args[key].str
    ensures key !in args || !args[key].AString? ==> r == defaultValue
  {
    if key in args && args[key].AString? then args[key].str else defaultValue
  }

  /** `GetBool`: the argument when it is present and a bool, else the default. */
  function GetBool(args: Arguments, key: string, defaultValue: bool): (r: bool)
    ensures key in args && args[key].ABool? ==> r == args[key].b
    ensures key !in args || !args[key].ABool? ==> r == defaultValue
  {
    if key in args && args[key].ABool? then args[key].b else defaultValue
  }

  /** `GetInt`: an `int` argument as is, a `float64` one converted, anything else the default. */
  function GetInt(args: Arguments, key: string, defaultValue: int): (r: int)
    ensures key in args && args[key].AInt? ==> r == args[key].i
    ensures key in args && args[key].AFloat? ==> r == args[key].whole
    ensures key !in args || !(args[key].AInt? || args[key].AFloat?) ==> r == defaultValue
  {
    if key !in args then defaultValue
    else match args[key]
      case AInt(i) => i
      case AFloat(w) => w
      case _ => defaultValue
  }

  /** A getter reads only its own key: setting one argument leaves the others' values alone. */
  lemma GettersReadOneKey(args: Arguments, key: string, other: string, a: Arg)
    requires key != other
    ensures GetString(args[key := a], other, "") == GetString(args, other, "")
    ensures GetBool(args[key := a], other, false) == GetBool(args, other, false)
    ensures GetInt(args[key := a], other, 0) == GetInt(args, other, 0)
  {
  }

  /** A value of the getter's own type always wins over the default. */
  lemma GettersReturnSetValue(args: Arguments, key: string, s: string, b: bool, i: int, d: string, db: bool, di: int)
    ensures GetString(args[key := AString(s)], key, d) == s
    ensures GetBool(args[key := ABool(b)], key, db) == b
    ensures GetInt(args[key := AInt(i)], key, di) == i
    ensures GetInt(args[key := AFloat(i)], key, di) == i
  {
  }
}
