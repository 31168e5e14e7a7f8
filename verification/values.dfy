/**
 * The heterogeneous values a task's configuration map holds, the typed
 * getters the task reads them with, and the errors the task raises.
 */
module Values {
  import opened Wrappers

  /** java.lang.Integer and java.lang.Long ranges. */
  type Int32 = x: int | -0x8000_0000 <= x < 0x8000_0000
  type Int64 = x: int | -0x8000_0000_0000_0000 <= x < 0x8000_0000_0000_0000

  /** `Long.intValue()`: keeps the low 32 bits, read as a signed number. */
  function IntValue(l: Int64): (i: Int32)
    ensures (i - l) % 0x1_0000_0000 == 0
    ensures -0x8000_0000 <= l < 0x8000_0000 ==> i == l
  {
    (l + 0x8000_0000) % 0x1_0000_0000 - 0x8000_0000
  }

  /**
   * A Java object found in a configuration or variable map. UUIDs are carried
   * as their canonical text (what `toString()` gives).
   */
  datatype Value =
    | VNull                              // a key bound to null
    | VStr(s: string)                    // String
    | VUuid(text: string)                // java.util.UUID
    | VInt(i: Int32)                     // Integer
    | VLong(l: Int64)                    // Long
    | VBool(b: bool)                     // Boolean
    | VStrArray(strs: seq<string>)       // String[]
    | VUuidArray(uuids: seq<string>)     // UUID[]
    | VList(elems: seq<Value>)           // a java.util.List
    | VColl(elems: seq<Value>)           // any other java.util.Collection (a Set, ...), in iteration order
    | VMap(entries: map<string, Value>)  // any java.util.Map
    | VOther                             // any other object (a Date, a Double, ...)
  {
    /** Whether the object is a `java.util.Collection`, a list or not. */
    predicate IsCollection() {
      VList? || VColl?
    }
  }

  /** A `Map<String, Object>`. */
  type Config = map<string, Value>

  /** The errors the modelled code raises, one per distinct throw site. */
  datatype Failure =
    | WrongType(key: string)          // a typed getter met a value of another type
    | InvalidSet(key: string)         // a set-valued key holds neither a string, a String[] nor a collection
    | NotCollection(key: string)      // a cast to Collection failed
    | NotMap(key: string)             // a cast to Map failed
    | NullDetail                      // an explicit null error detail was dereferenced
    | InstancesNotNumber
    | InstancesNotPositive
    | InvalidInstanceIds              // instanceId is not a string, a UUID, an array or a collection
    | InvalidInstanceIdElement        // a collection element is neither a string nor a UUID
    | NoInstanceIds                   // the list of processes to kill is empty
    | EmptyForks
    | EntryPointRequired
    | PayloadOrProjectRequired
    | PayloadNotFound(path: string)
    | Required(key: string)           // a required context variable is unset or not a string
    | UnknownAction(name: string)
    | MissingJobs                     // the stored list of child processes is missing, malformed or empty
    | WaitTimeout(id: string, elapsed: int)
    | StillWaiting(id: string)        // the supplied observations end before the process stops
    | RemoteCallFailed
    | ChildrenFailed(message: string)

  /** `m.get(k)`: a missing key and a key bound to null both read as null. */
  function Get(m: Config, k: string): (r: Option<Value>)
    ensures r.Some? <==> k in m && m[k] != VNull
    ensures r.Some? ==> r.value == m[k]
  {
    if k in m && m[k] != VNull then Some(m[k]) else None
  }

  /** `getString(m, k)`: null when unset, the string when it is one. */
  function GetString(m: Config, k: string): (r: Result<Option<string>, Failure>)
    ensures r == Ok(None) <==> Get(m, k) == None
    ensures forall s :: r == Ok(Some(s)) <==> Get(m, k) == Some(VStr(s))
    ensures r.Err? ==> r.error == WrongType(k)
  {
    match Get(m, k)
    case None => Ok(None)
    case Some(VStr(s)) => Ok(Some(s))
    case Some(_) => Err(WrongType(k))
  }

  /** `getBoolean(m, k, default)`: the default when unset, the flag when it is one. */
  function GetBool(m: Config, k: string, default: bool): (r: Result<bool, Failure>)
    ensures Get(m, k) == None ==> r == Ok(default)
    ensures forall b :: Get(m, k) == Some(VBool(b)) ==> r == Ok(b)
    ensures r.Err? <==> Get(m, k).Some? && !Get(m, k).value.VBool?
    ensures r.Err? ==> r.error == WrongType(k)
  {
    match Get(m, k)
    case None => Ok(default)
    case Some(VBool(b)) => Ok(b)
    case Some(_) => Err(WrongType(k))
  }

  /** `getMap(m, k, emptyMap)`: the empty map when unset, the map when it is one. */
  function GetMap(m: Config, k: string): (r: Result<Config, Failure>)
    ensures Get(m, k) == None ==> r == Ok(map[])
    ensures forall e :: Get(m, k) == Some(VMap(e)) ==> r == Ok(e)
    ensures r.Err? <==> Get(m, k).Some? && !Get(m, k).value.VMap?
  {
    match Get(m, k)
    case None => Ok(map[])
    case Some(VMap(e)) => Ok(e)
    case Some(_) => Err(WrongType(k))
  }

  /**
   * `getList(m, k, null)`: null when unset, the list's elements when it is a
   * collection. The elements are not cast here: the caller's for-each casts
   * each one as it reaches it.
   */
  function GetList(m: Config, k: string): (r: Result<Option<seq<Value>>, Failure>)
    ensures r == Ok(None) <==> Get(m, k) == None
    ensures forall es :: r == Ok(Some(es)) <==> Get(m, k) == Some(VList(es))
    ensures r.Err? ==> r.error == WrongType(k)
    ensures forall es :: Get(m, k) == Some(VColl(es)) ==> r == Err(WrongType(k))
  {
    match Get(m, k)
    case None => Ok(None)
    case Some(VList(es)) => Ok(Some(es))
    case Some(_) => Err(WrongType(k))
  }
}
