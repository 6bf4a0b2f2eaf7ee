/** Values shared by every component of the launcher: environment snapshots,
    already-parsed JSON documents, the software description handed in by the
    versioning library, and the errors the components raise. */
module Common {

  /** An environment snapshot: variable name to value. */
  type Env = map<string, string>

  datatype Option<+T> = None | Some(value: T)

  /** A value, or the exception that was raised instead of returning it. */
  datatype Result<+T> = Ok(value: T) | Err(error: Error)

  /** Completion of a procedure that returns nothing but may raise. */
  datatype Outcome = Pass | Fail(error: Error)

  /** The exceptions of the launcher, plus the two Python failures the code
      runs into on ill-typed input: a failed `assert` and a TypeError or
      AttributeError raised by the interpreter itself. */
  datatype Error =
    | InvalidVarError(name: string)
    | InvalidVarValueError
    | ResolveError(stderr: string)
    | MissingRequiredConfigError(name: string)
    | InvalidConfigError(name: string)
    | LauncherNotRegisteredError(name: string)
    | MissingLauncherTypeError
    | UnexpecteJsonContentError(message: string)  // spelled as the source spells it
    | AssertionFailure(message: string)
    | RuntimeTypeError(message: string)

  /** A JSON document as the JSON parser returns it. Objects keep their
      members in document order. */
  datatype Json =
    | JNull
    | JBool(b: bool)
    | JNum(n: int)
    | JStr(s: string)
    | JArr(items: seq<Json>)
    | JObj(members: seq<(string, Json)>)

  /** Python truthiness of a parsed JSON value. */
  predicate Truthy(j: Json)
  {
    match j
    case JNull => false
    case JBool(b) => b
    case JNum(n) => n != 0
    case JStr(s) => s != ""
    case JArr(xs) => xs != []
    case JObj(ms) => ms != []
  }

  /** Whether an object has a member of the given name (`key in dict`). */
  predicate HasKey(members: seq<(string, Json)>, key: string)
  {
    exists i :: 0 <= i < |members| && members[i].0 == key
  }

  /** The value of the first member of the given name (`dict[key]`). */
  function Get(members: seq<(string, Json)>, key: string): (r: Option<Json>)
    ensures r.Some? <==> HasKey(members, key)
    ensures r.Some? ==> exists i :: 0 <= i < |members| && members[i] == (key, r.value)
  {
    if members == [] then None
    else if members[0].0 == key then Some(members[0].1)
    else
      var r := Get(members[1..], key);
      if r.Some? then
        ghost var i :| 0 <= i < |members[1..]| && members[1..][i] == (key, r.value);
        assert members[i + 1] == (key, r.value);
        r
      else
        assert forall i :: 1 <= i < |members| ==> members[i] == members[1..][i - 1];
        r
  }

  /** The parser never produces two members with the same name. */
  predicate UniqueKeys(members: seq<(string, Json)>)
  {
    forall i, j :: 0 <= i < j < |members| ==> members[i].0 != members[j].0
  }

  /** `sep.join(parts)`. */
  function Join(parts: seq<string>, sep: char): (r: string)
    ensures parts == [] ==> r == ""
    ensures |parts| == 1 ==> r == parts[0]
  {
    if parts == [] then ""
    else if |parts| == 1 then parts[0]
    else parts[0] + [sep] + Join(parts[1..], sep)
  }

  /** The addon of a software release: its name and its option set. */
  datatype Addon = Addon(name: string, options: map<string, Json>)

  /** The software being launched, as the versioning library describes it:
      its name and its addons in their declared order. */
  datatype Software = Software(name: string, addons: seq<Addon>)
}
