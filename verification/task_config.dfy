/**
 * Configuration handling of the `concord` task: merging a job's settings
 * over the task's, reading multi-valued and numeric keys, resolving the
 * deprecated aliases and translating a configuration into a process request.
 */
module TaskConfig {
  import opened Wrappers
  import opened Values
  import Text

  const ActiveProfilesKey := "activeProfiles"
  const ArchiveKey := "archive"          // deprecated alias of PayloadKey
  const ArgumentsKey := "arguments"
  const DisableOnCancelKey := "disableOnCancel"
  const DisableOnFailureKey := "disableOnFailure"
  const EntryPointKey := "entryPoint"
  const ExclusiveExecKey := "exclusiveExec"
  const ForksKey := "forks"
  const IgnoreFailuresKey := "ignoreFailures"
  const InstanceIdKey := "instanceId"
  const InstancesKey := "instances"
  const JobOutKey := "jobOut"
  const JobsKey := "jobs"
  const OrgKey := "org"
  const OutVarsKey := "outVars"
  const PayloadKey := "payload"
  const ProjectKey := "project"
  const RepoBranchOrTagKey := "repoBranchOrTag"
  const RepoCommitIdKey := "repoCommitId"
  const RepoKey := "repo"
  const RepositoryKey := "repository"    // deprecated alias of RepoKey
  const SyncKey := "sync"
  const TagsKey := "tags"
  const SuspendKey := "suspend"

  /** The request a process is started or forked with; a field is unset when its key is left out. */
  datatype Request = Request(
    activeProfiles: Option<set<Value>>,
    entryPoint: Option<string>,
    exclusiveExec: Option<bool>,
    tags: Option<set<Value>>,
    arguments: Option<Config>,
    disableOnCancel: bool,
    disableOnFailure: bool,
    outExpressions: Option<seq<Value>>)

  /** The four actions the task understands. */
  datatype Action = Start | StartExternal | Fork | Kill

  function ActionName(a: Action): string {
    match a
    case Start => "START"
    case StartExternal => "STARTEXTERNAL"
    case Fork => "FORK"
    case Kill => "KILL"
  }

  /**
   * `createJobCfg`: the task's own configuration with the job's entries laid
   * over it. `base` is what the task's base class collects from the context.
   */
  function CreateJobCfg(base: Config, job: Option<Config>): (r: Config)
    ensures job.None? ==> r == base
    ensures job.Some? ==> forall k :: k in job.value ==> k in r && r[k] == job.value[k]
    ensures forall k :: k in base && (job.None? || k !in job.value) ==> k in r && r[k] == base[k]
    ensures forall k :: k in r ==> k in base || (job.Some? && k in job.value)
  {
    match job
    case None => base
    case Some(j) => base + j
  }

  /** The set Java collects from `s.split(",")` after trimming every piece. */
  function SplitSet(s: string): (r: set<Value>)
    ensures forall v :: v in r ==> v.VStr? && ',' !in v.s
  {
    var pieces := Text.JavaSplit(s, ',');
    set i | 0 <= i < |pieces| :: VStr(Text.Trim(pieces[i]))
  }

  /**
   * `getSet`: null for a missing configuration or key; a string is split on
   * commas and trimmed; a String[] or a collection gives its elements.
   */
  function GetSet(cfg: Option<Config>, k: string): (r: Result<Option<set<Value>>, Failure>)
    ensures cfg.None? ==> r == Ok(None)
    ensures cfg.Some? && Get(cfg.value, k).None? ==> r == Ok(None)
    ensures cfg.Some? ==> forall s :: Get(cfg.value, k) == Some(VStr(s)) ==> r == Ok(Some(SplitSet(s)))
    ensures r.Err? <==> cfg.Some? && Get(cfg.value, k).Some?
                        && !(Get(cfg.value, k).value.VStr? || Get(cfg.value, k).value.VStrArray? || Get(cfg.value, k).value.IsCollection())
    ensures r.Err? ==> r.error == InvalidSet(k)
  {
    match cfg
    case None => Ok(None)
    case Some(m) =>
      match Get(m, k)
      case None => Ok(None)
      case Some(VStr(s)) => Ok(Some(SplitSet(s)))
      case Some(VStrArray(ss)) => Ok(Some(set i | 0 <= i < |ss| :: VStr(ss[i])))
      case Some(VList(es)) => Ok(Some(set v | v in es))
      case Some(VColl(es)) => Ok(Some(set v | v in es))
      case Some(_) => Err(InvalidSet(k))
  }

  /** `getSet` of a String[] or a collection holds exactly its elements. */
  lemma GetSetElements(m: Config, k: string)
    ensures forall ss :: Get(m, k) == Some(VStrArray(ss)) ==>
              GetSet(Some(m), k).Ok? && GetSet(Some(m), k).value.Some?
              && forall v :: v in GetSet(Some(m), k).value.value <==> exists i :: 0 <= i < |ss| && v == VStr(ss[i])
    ensures Get(m, k).Some? && Get(m, k).value.IsCollection() ==>
              GetSet(Some(m), k).Ok? && GetSet(Some(m), k).value.Some?
              && forall v :: v in GetSet(Some(m), k).value.value <==> v in Get(m, k).value.elems
  {
  }

  /**
   * `getInstances`: 1 when the key is absent; an Integer, or a Long narrowed
   * by `intValue()`, that must be positive.
   */
  function GetInstances(cfg: Config): (r: Result<int, Failure>)
    ensures InstancesKey !in cfg ==> r == Ok(1)
    ensures r.Ok? ==> 1 <= r.value < 0x8000_0000
    ensures forall i :: InstancesKey in cfg && cfg[InstancesKey] == VInt(i) ==>
              r == (if i > 0 then Ok(i) else Err(InstancesNotPositive))
    ensures forall l :: InstancesKey in cfg && cfg[InstancesKey] == VLong(l) ==>
              r == (if IntValue(l) > 0 then Ok(IntValue(l)) else Err(InstancesNotPositive))
    ensures r == Err(InstancesNotNumber) <==>
              InstancesKey in cfg && !cfg[InstancesKey].VInt? && !cfg[InstancesKey].VLong?
  {
    var v := if InstancesKey in cfg then cfg[InstancesKey] else VInt(1);
    var i: Int32 :- match v
      case VInt(i) => Ok(i)
      case VLong(l) => Ok(IntValue(l))
      case _ => Err(InstancesNotNumber);
    if i <= 0 then Err(InstancesNotPositive) else Ok(i)
  }

  /** `getOrg`: the configured organization, else the current project's. */
  function GetOrg(cfg: Config, projectOrg: Option<string>): (r: Result<Option<string>, Failure>)
    ensures forall o :: Get(cfg, OrgKey) == Some(VStr(o)) ==> r == Ok(Some(o))
    ensures Get(cfg, OrgKey) == None ==> r == Ok(projectOrg)
    ensures r.Err? <==> GetString(cfg, OrgKey).Err?
  {
    var org :- GetString(cfg, OrgKey);
    if org.Some? then Ok(org) else Ok(projectOrg)
  }

  /** `getRepo`: `repo` wins over the deprecated `repository`. */
  function GetRepo(cfg: Config): (r: Result<Option<string>, Failure>)
    ensures forall s :: Get(cfg, RepoKey) == Some(VStr(s)) ==> r == Ok(Some(s))
    ensures Get(cfg, RepoKey) == None ==> r == GetString(cfg, RepositoryKey)
    ensures r.Err? <==> GetString(cfg, RepoKey).Err? || (Get(cfg, RepoKey) == None && GetString(cfg, RepositoryKey).Err?)
  {
    var repo :- GetString(cfg, RepoKey);
    if repo.Some? then Ok(repo) else GetString(cfg, RepositoryKey)
  }

  /**
   * The key choice and existence check of `archivePayload`: `payload` wins
   * over the deprecated `archive`; a chosen path must be in `files`, the
   * paths that exist in the working directory.
   */
  function ArchivePayload(cfg: Config, files: set<string>): (r: Result<Option<string>, Failure>)
    ensures forall p :: Get(cfg, PayloadKey) == Some(VStr(p)) ==>
              r == (if p in files then Ok(Some(p)) else Err(PayloadNotFound(p)))
    ensures forall a :: Get(cfg, PayloadKey) == None && Get(cfg, ArchiveKey) == Some(VStr(a)) ==>
              r == (if a in files then Ok(Some(a)) else Err(PayloadNotFound(a)))
    ensures Get(cfg, PayloadKey) == None && Get(cfg, ArchiveKey) == None ==> r == Ok(None)
    ensures r.Ok? && r.value.Some? ==> r.value.value in files
  {
    var payload :- GetString(cfg, PayloadKey);
    var s :- if payload.Some? then Ok(payload) else GetString(cfg, ArchiveKey);
    match s
    case None => Ok(None)
    case Some(p) => if p in files then Ok(Some(p)) else Err(PayloadNotFound(p))
  }

  /** A configured `org` decides alone: the current project's organization is not consulted. */
  lemma OrgIgnoresProject(cfg: Config, o: string, p: Option<string>, q: Option<string>)
    requires Get(cfg, OrgKey) == Some(VStr(o))
    ensures GetOrg(cfg, p) == GetOrg(cfg, q) == Ok(Some(o))
  {
  }

  /** With `repo` set to a string, the deprecated `repository`, whatever it holds, is never read. */
  lemma RepoShadowsRepository(cfg: Config, s: string, v: Value)
    requires Get(cfg, RepoKey) == Some(VStr(s))
    ensures GetRepo(cfg) == GetRepo(cfg - {RepositoryKey}) == GetRepo(cfg[RepositoryKey := v]) == Ok(Some(s))
  {
    assert Get(cfg - {RepositoryKey}, RepoKey) == Get(cfg, RepoKey);
    assert Get(cfg[RepositoryKey := v], RepoKey) == Get(cfg, RepoKey);
  }

  /** Without `repo`, the deprecated `repository` is read as `repo` would be; a wrong type names `repository`. */
  lemma RepositoryActsAsRepo(cfg: Config, v: Value)
    requires Get(cfg, RepoKey) == None
    ensures GetRepo(cfg[RepositoryKey := v]).Err? <==> GetRepo(map[RepoKey := v]).Err?
    ensures GetRepo(cfg[RepositoryKey := v]).Ok? ==> GetRepo(cfg[RepositoryKey := v]) == GetRepo(map[RepoKey := v])
    ensures GetRepo(cfg[RepositoryKey := v]).Err? ==> GetRepo(cfg[RepositoryKey := v]).error == WrongType(RepositoryKey)
  {
    assert Get(cfg[RepositoryKey := v], RepoKey) == None;
    assert Get(cfg[RepositoryKey := v], RepositoryKey) == Get(map[RepoKey := v], RepoKey);
    assert Get(map[RepoKey := v], RepositoryKey) == None;
  }

  /** With `payload` set to a string, the deprecated `archive`, whatever it holds, is never read. */
  lemma PayloadShadowsArchive(cfg: Config, files: set<string>, p: string, v: Value)
    requires Get(cfg, PayloadKey) == Some(VStr(p))
    ensures ArchivePayload(cfg, files) == ArchivePayload(cfg - {ArchiveKey}, files)
    ensures ArchivePayload(cfg, files) == ArchivePayload(cfg[ArchiveKey := v], files)
  {
    assert Get(cfg - {ArchiveKey}, PayloadKey) == Get(cfg, PayloadKey);
    assert Get(cfg[ArchiveKey := v], PayloadKey) == Get(cfg, PayloadKey);
  }

  /** Without `payload`, the deprecated `archive` is read as `payload` would be; a wrong type names `archive`. */
  lemma ArchiveActsAsPayload(cfg: Config, files: set<string>, v: Value)
    requires Get(cfg, PayloadKey) == None
    ensures ArchivePayload(cfg[ArchiveKey := v], files).Ok? <==> ArchivePayload(map[PayloadKey := v], files).Ok?
    ensures ArchivePayload(cfg[ArchiveKey := v], files).Ok? ==>
              ArchivePayload(cfg[ArchiveKey := v], files) == ArchivePayload(map[PayloadKey := v], files)
    ensures ArchivePayload(cfg[ArchiveKey := v], files).Err? ==>
              ArchivePayload(cfg[ArchiveKey := v], files).error
              == (if v.VStr? then PayloadNotFound(v.s) else WrongType(ArchiveKey))
  {
    assert Get(cfg[ArchiveKey := v], PayloadKey) == None;
    assert Get(cfg[ArchiveKey := v], ArchiveKey) == Get(map[PayloadKey := v], PayloadKey);
    assert Get(map[PayloadKey := v], ArchiveKey) == None;
  }

  /** The `exclusiveExec` request entry: set, to the flag, only when the key holds a value. */
  function ExclusiveExec(cfg: Config): (r: Result<Option<bool>, Failure>)
    ensures Get(cfg, ExclusiveExecKey) == None ==> r == Ok(None)
    ensures forall b :: Get(cfg, ExclusiveExecKey) == Some(VBool(b)) ==> r == Ok(Some(b))
    ensures r.Err? <==> Get(cfg, ExclusiveExecKey).Some? && !Get(cfg, ExclusiveExecKey).value.VBool?
  {
    if Get(cfg, ExclusiveExecKey).Some? then
      var b :- GetBool(cfg, ExclusiveExecKey, false); Ok(Some(b))
    else Ok(None)
  }

  /** The `arguments` request entry: set only to a non-empty map. */
  function Arguments(cfg: Config): (r: Result<Option<Config>, Failure>)
    ensures r.Ok? ==> (r.value.Some? <==> exists a :: Get(cfg, ArgumentsKey) == Some(VMap(a)) && |a| > 0)
    ensures r.Ok? && r.value.Some? ==> Get(cfg, ArgumentsKey) == Some(VMap(r.value.value))
    ensures r.Err? <==> Get(cfg, ArgumentsKey).Some? && !Get(cfg, ArgumentsKey).value.VMap?
  {
    var args :- GetMap(cfg, ArgumentsKey);
    Ok(if |args| > 0 then Some(args) else None)
  }

  /**
   * The output-expression request entry: the `outVars` value cast to a
   * collection, set only when that collection is non-empty.
   */
  function OutExpressions(cfg: Config): (r: Result<Option<seq<Value>>, Failure>)
    ensures r.Ok? ==> (r.value.Some? <==> && Get(cfg, OutVarsKey).Some? && Get(cfg, OutVarsKey).value.IsCollection()
                                          && |Get(cfg, OutVarsKey).value.elems| > 0)
    ensures r.Ok? && r.value.Some? ==>
              Get(cfg, OutVarsKey).Some? && Get(cfg, OutVarsKey).value.IsCollection()
              && Get(cfg, OutVarsKey).value.elems == r.value.value
    ensures r.Err? <==> Get(cfg, OutVarsKey).Some? && !Get(cfg, OutVarsKey).value.IsCollection()
    ensures r.Err? ==> r.error == NotCollection(OutVarsKey)
  {
    match Get(cfg, OutVarsKey)
    case None => Ok(None)
    case Some(VList(es)) => Ok(if |es| > 0 then Some(es) else None)
    case Some(VColl(es)) => Ok(if |es| > 0 then Some(es) else None)
    case Some(_) => Err(NotCollection(OutVarsKey))
  }

  /**
   * `createRequest`: every request entry is set only when its configuration
   * value is present, non-empty or true.
   */
  function CreateRequest(cfg: Config): (r: Result<Request, Failure>)
    ensures r.Err? <==>
              || GetSet(Some(cfg), ActiveProfilesKey).Err?
              || GetString(cfg, EntryPointKey).Err?
              || ExclusiveExec(cfg).Err?
              || GetSet(Some(cfg), TagsKey).Err?
              || Arguments(cfg).Err?
              || GetBool(cfg, DisableOnCancelKey, false).Err?
              || GetBool(cfg, DisableOnFailureKey, false).Err?
              || OutExpressions(cfg).Err?
    ensures r.Ok? ==> r.value.activeProfiles == GetSet(Some(cfg), ActiveProfilesKey).value
    ensures r.Ok? ==> r.value.tags == GetSet(Some(cfg), TagsKey).value
    ensures r.Ok? ==> forall e :: r.value.entryPoint == Some(e) <==> Get(cfg, EntryPointKey) == Some(VStr(e))
    ensures r.Ok? ==> r.value.exclusiveExec == ExclusiveExec(cfg).value
    ensures r.Ok? ==> r.value.arguments == Arguments(cfg).value
    ensures r.Ok? ==> (r.value.disableOnCancel <==> Get(cfg, DisableOnCancelKey) == Some(VBool(true)))
    ensures r.Ok? ==> (r.value.disableOnFailure <==> Get(cfg, DisableOnFailureKey) == Some(VBool(true)))
    ensures r.Ok? ==> r.value.outExpressions == OutExpressions(cfg).value
  {
    RequestOf(GetSet(Some(cfg), ActiveProfilesKey), GetString(cfg, EntryPointKey), ExclusiveExec(cfg),
              GetSet(Some(cfg), TagsKey), Arguments(cfg), GetBool(cfg, DisableOnCancelKey, false),
              GetBool(cfg, DisableOnFailureKey, false), OutExpressions(cfg))
  }

  /** The request from its readers' answers, taken in `createRequest`'s order: the first failure wins. */
  function RequestOf(activeProfiles: Result<Option<set<Value>>, Failure>, entryPoint: Result<Option<string>, Failure>,
                     exclusiveExec: Result<Option<bool>, Failure>, tags: Result<Option<set<Value>>, Failure>,
                     args: Result<Option<Config>, Failure>, disableOnCancel: Result<bool, Failure>,
                     disableOnFailure: Result<bool, Failure>, outVars: Result<Option<seq<Value>>, Failure>)
    : Result<Request, Failure>
  {
    var activeProfiles :- activeProfiles;
    var entryPoint :- entryPoint;
    var exclusiveExec :- exclusiveExec;
    var tags :- tags;
    var args :- args;
    var disableOnCancel :- disableOnCancel;
    var disableOnFailure :- disableOnFailure;
    var outVars :- outVars;
    Ok(Request(activeProfiles, entryPoint, exclusiveExec, tags, args, disableOnCancel, disableOnFailure, outVars))
  }

  /** The configuration keys `createRequest` reads. */
  const RequestKeys: set<string> :=
    {ActiveProfilesKey, EntryPointKey, ExclusiveExecKey, TagsKey, ArgumentsKey,
     DisableOnCancelKey, DisableOnFailureKey, OutVarsKey}

  /** Two configurations that agree on every key `createRequest` reads give the same request, or the same error. */
  lemma CreateRequestReadsOnly(a: Config, b: Config)
    requires forall k :: k in RequestKeys ==> Get(a, k) == Get(b, k)
    ensures CreateRequest(a) == CreateRequest(b)
  {
    ReadersAgree(a, b, ActiveProfilesKey);
    ReadersAgree(a, b, EntryPointKey);
    ReadersAgree(a, b, ExclusiveExecKey);
    ReadersAgree(a, b, TagsKey);
    ReadersAgree(a, b, ArgumentsKey);
    ReadersAgree(a, b, DisableOnCancelKey);
    ReadersAgree(a, b, DisableOnFailureKey);
    ReadersAgree(a, b, OutVarsKey);
  }

  /** Every reader of a key sees only what the key holds. */
  lemma ReadersAgree(a: Config, b: Config, k: string)
    requires Get(a, k) == Get(b, k)
    ensures GetSet(Some(a), k) == GetSet(Some(b), k)
    ensures GetString(a, k) == GetString(b, k)
    ensures GetBool(a, k, false) == GetBool(b, k, false)
    ensures k == ExclusiveExecKey ==> ExclusiveExec(a) == ExclusiveExec(b)
    ensures k == ArgumentsKey ==> Arguments(a) == Arguments(b)
    ensures k == OutVarsKey ==> OutExpressions(a) == OutExpressions(b)
  {
  }

  /** Removing or changing a key `createRequest` does not read leaves the request as it was. */
  lemma CreateRequestIgnores(cfg: Config, k: string, v: Value)
    requires k !in RequestKeys
    ensures CreateRequest(cfg) == CreateRequest(cfg - {k}) == CreateRequest(cfg[k := v])
  {
    CreateRequestReadsOnly(cfg, cfg - {k});
    CreateRequestReadsOnly(cfg, cfg[k := v]);
  }

  /** `Action.valueOf(name)`: the action whose constant is spelled `name`, if any. */
  function ActionNamed(name: string): (r: Option<Action>)
    ensures forall a :: r == Some(a) <==> name == ActionName(a)
  {
    if name == "START" then Some(Start)
    else if name == "STARTEXTERNAL" then Some(StartExternal)
    else if name == "FORK" then Some(Fork)
    else if name == "KILL" then Some(Kill)
    else None
  }

  /** `Action.valueOf(s.trim().toUpperCase())`. */
  function ParseAction(s: string): (r: Result<Action, Failure>)
    ensures forall a :: r == Ok(a) <==> Text.Upper(Text.Trim(s)) == ActionName(a)
    ensures r.Err? ==> r.error == UnknownAction(s)
  {
    match ActionNamed(Text.Upper(Text.Trim(s)))
    case Some(a) => Ok(a)
    case None => Err(UnknownAction(s))
  }

  /** An action's name, in any letter case and padded with blanks, reads back as that action. */
  lemma ParseActionName(a: Action, pad: string)
    requires forall i :: 0 <= i < |pad| ==> Text.Blank(pad[i])
    ensures ParseAction(pad + Text.Lower(ActionName(a)) + pad) == Ok(a)
  {
    var name := ActionName(a);
    ActionNameCapitals(a);
    var w := Text.Lower(name);
    assert 'a' <= w[0] <= 'z' && 'a' <= w[|w| - 1] <= 'z';
    TrimPadded(pad, w);
    Text.UpperLower(name);
  }

  /** Every action name is a non-empty run of capital letters. */
  lemma ActionNameCapitals(a: Action)
    ensures |ActionName(a)| > 0
    ensures forall i :: 0 <= i < |ActionName(a)| ==> 'A' <= ActionName(a)[i] <= 'Z'
  {
  }

  /** A word without blank ends, padded with blanks on both sides, trims back to the word. */
  lemma TrimPadded(pad: string, w: string)
    requires forall i :: 0 <= i < |pad| ==> Text.Blank(pad[i])
    requires |w| > 0 && !Text.Blank(w[0]) && !Text.Blank(w[|w| - 1])
    ensures Text.Trim(pad + w + pad) == w
  {
    var s := pad + w + pad;
    LeadingBlanksPadded(pad, w);
    TrailingBlanksPadded(pad, w);
    assert s[|pad|..|pad| + |w|] == w;
  }

  lemma {:induction false} LeadingBlanksPadded(pad: string, w: string)
    requires forall i :: 0 <= i < |pad| ==> Text.Blank(pad[i])
    requires |w| > 0 && !Text.Blank(w[0])
    ensures Text.LeadingBlanks(pad + w + pad) == |pad|
    decreases |pad|
  {
    var s := pad + w + pad;
    if |pad| > 0 {
      assert s[1..] == pad[1..] + w + pad;
      LeadingBlanksPaddedRest(pad[1..], w, pad);
    }
  }

  lemma {:induction false} LeadingBlanksPaddedRest(pre: string, w: string, post: string)
    requires forall i :: 0 <= i < |pre| ==> Text.Blank(pre[i])
    requires |w| > 0 && !Text.Blank(w[0])
    ensures Text.LeadingBlanks(pre + w + post) == |pre|
    decreases |pre|
  {
    var s := pre + w + post;
    if |pre| > 0 {
      assert s[1..] == pre[1..] + w + post;
      LeadingBlanksPaddedRest(pre[1..], w, post);
    } else {
      assert s[0] == w[0];
    }
  }

  lemma {:induction false} TrailingBlanksPadded(pad: string, w: string)
    requires forall i :: 0 <= i < |pad| ==> Text.Blank(pad[i])
    requires |w| > 0 && !Text.Blank(w[|w| - 1])
    ensures Text.TrailingBlanks(pad + w + pad) == |pad|
  {
    TrailingBlanksPaddedRest(pad, w, pad);
  }

  lemma {:induction false} TrailingBlanksPaddedRest(pre: string, w: string, post: string)
    requires forall i :: 0 <= i < |post| ==> Text.Blank(post[i])
    requires |w| > 0 && !Text.Blank(w[|w| - 1])
    ensures Text.TrailingBlanks(pre + w + post) == |post|
    decreases |post|
  {
    var s := pre + w + post;
    if |post| > 0 {
      assert s[..|s| - 1] == pre + w + post[..|post| - 1];
      TrailingBlanksPaddedRest(pre, w, post[..|post| - 1]);
    } else {
      assert s[|s| - 1] == w[|w| - 1];
    }
  }

  /**
   * A comma-separated string read by `getSet` gives the trimmed pieces it was
   * built from, as long as its last piece is not empty.
   */
  lemma GetSetOfJoined(parts: seq<string>, k: string)
    requires |parts| >= 1 && parts[|parts| - 1] != ""
    requires forall i :: 0 <= i < |parts| ==> ',' !in parts[i]
    ensures GetSet(Some(map[k := VStr(Text.Join(parts, ','))]), k)
            == Ok(Some(set i | 0 <= i < |parts| :: VStr(Text.Trim(parts[i]))))
  {
    var s := Text.Join(parts, ',');
    Text.SplitAllJoin(parts, ',');
    if ',' !in s {
      assert Text.SplitAll(s, ',') == [s];
    }
    assert Text.JavaSplit(s, ',') == parts;
  }
}
