/**
 * The task's entry point: the `action` dispatch, starting a process (child
 * or external), suspending until it ends, resuming, forking and killing, as
 * effects on the process context.
 */
module Task {
  import opened Wrappers
  import opened Values
  import opened Remote
  import opened TaskConfig
  import Waiter
  import Results
  import Launcher

  const ActionKey := "action"
  const ApiKeyKey := "apiKey"
  /** The context variable that records a suspension waiting for children. */
  const SuspendMarker := "__concordTaskSuspend"
  /** The event the suspended process is resumed by. */
  const ResumeEvent := "concordTask"

  /** A registered wait condition: the processes to wait for and the event that resumes the parent. */
  datatype WaitCondition = WaitCondition(processes: seq<string>, resumeEvent: string)

  /** The process context the task runs in, with what the runtime supplies. */
  datatype Ctx = Ctx(
    vars: Config,                      // the context variables
    jobBase: Config,                   // the task settings read for the job keys (`createCfg` with a key list)
    taskCfg: Config,                   // the task settings read without a key list (`createCfg(ctx)`)
    txId: string,                      // this process's instance id
    projectOrg: Option<string>,        // the organization of the current project, if any
    files: set<string>,                // paths that exist in the working directory
    suspended: Option<WaitCondition>)  // set once the process is parked on a wait condition

  /** The context after the task ran, and the error it raised, if any; effects made before an error stay. */
  datatype Outcome = Outcome(ctx: Ctx, failure: Option<Failure>)

  /** The fields of a start request that `start` fills in (the `startAt` field is not modelled). */
  datatype StartInput = StartInput(
    archive: Option<string>,
    request: Request,
    org: Option<string>,
    project: Option<string>,
    repo: Option<string>,
    repoBranchOrTag: Option<string>,
    repoCommitId: Option<string>,
    parentInstanceId: Option<string>)

  /** A list of process ids as a context value. */
  function StrList(ids: seq<string>): (v: Value)
    ensures v.VList? && |v.elems| == |ids|
    ensures forall i :: 0 <= i < |ids| ==> v.elems[i] == VStr(ids[i])
  {
    VList(seq(|ids|, i requires 0 <= i < |ids| => VStr(ids[i])))
  }

  /** The strings of a list whose elements must all be strings. */
  function StringsOf(es: seq<Value>): (r: Option<seq<string>>)
    ensures r.Some? <==> forall i :: 0 <= i < |es| ==> es[i].VStr?
    ensures r.Some? ==> |r.value| == |es| && forall i :: 0 <= i < |es| ==> es[i] == VStr(r.value[i])
  {
    if |es| == 0 then Some([])
    else if !es[0].VStr? then None
    else match StringsOf(es[1..])
      case None => None
      case Some(rest) =>
        assert forall i :: 0 < i < |es| ==> es[i] == es[1..][i - 1];
        Some([es[0].s] + rest)
  }

  /** The child processes stored in `jobs`; an unset, empty or malformed list cannot be resumed. */
  function JobsOf(vars: Config): (r: Result<seq<string>, Failure>)
    ensures r.Ok? ==> |r.value| > 0 && Get(vars, JobsKey) == Some(StrList(r.value))
    ensures r.Err? ==> r.error == MissingJobs
  {
    match Get(vars, JobsKey)
    case Some(VList(es)) =>
      (match StringsOf(es)
       case Some(ids) =>
         if |ids| == 0 then Err(MissingJobs)
         else
           assert StrList(ids).elems == es;
           Ok(ids)
       case None => Err(MissingJobs))
    case _ => Err(MissingJobs)
  }

  /** The ids in order of first occurrence, each once. */
  function Dedup(ids: seq<string>): (r: seq<string>)
    ensures forall x :: x in r <==> x in ids
    ensures forall i, j :: 0 <= i < j < |r| ==> r[i] != r[j]
    ensures |r| <= |ids|
  {
    if |ids| == 0 then []
    else
      var r := Dedup(ids[..|ids| - 1]);
      var x := ids[|ids| - 1];
      assert forall y :: y in ids <==> y in ids[..|ids| - 1] || y == x;
      if x in r then r else r + [x]
  }

  /** The first-occurrence order of the waited-for ids enumerates the map of their results. */
  lemma DedupEnumerates(ids: seq<string>, m: map<string, ProcessEntry>)
    requires forall id :: id in m <==> id in ids
    ensures Results.Enumerates(Dedup(ids), m)
  {
  }

  /** `getAction`: the `action` variable, trimmed and upper-cased, names one of the four actions. */
  function GetAction(vars: Config): (r: Result<Action, Failure>)
    ensures forall s :: Get(vars, ActionKey) == Some(VStr(s)) ==> r == ParseAction(s)
    ensures !(Get(vars, ActionKey).Some? && Get(vars, ActionKey).value.VStr?) ==> r == Err(Required(ActionKey))
  {
    match Get(vars, ActionKey)
    case Some(VStr(s)) => ParseAction(s)
    case _ => Err(Required(ActionKey))
  }

  /**
   * Everything `start` reads from the job configuration before it sends the
   * request, in the order it reads them; a payload or a project is required.
   */
  function StartInputOf(cfg: Config, ctx: Ctx, parent: Option<string>): (r: Result<StartInput, Failure>)
    ensures r.Ok? ==> r.value.archive.Some? || r.value.project.Some?
    ensures r.Ok? ==> ArchivePayload(cfg, ctx.files) == Ok(r.value.archive)
    ensures r.Ok? && r.value.archive.Some? ==> r.value.archive.value in ctx.files
    ensures r.Ok? ==> CreateRequest(cfg) == Ok(r.value.request)
    ensures r.Ok? ==> r.value.parentInstanceId == parent
    ensures forall p :: r.Ok? ==> (r.value.project == Some(p) <==> Get(cfg, ProjectKey) == Some(VStr(p)))
    ensures CreateRequest(cfg).Ok? && ArchivePayload(cfg, ctx.files) == Ok(None) && Get(cfg, ProjectKey) == None
            ==> r == Err(PayloadOrProjectRequired)
    ensures r.Ok? ==> && GetOrg(cfg, ctx.projectOrg) == Ok(r.value.org)
                      && GetRepo(cfg) == Ok(r.value.repo)
                      && GetString(cfg, RepoBranchOrTagKey) == Ok(r.value.repoBranchOrTag)
                      && GetString(cfg, RepoCommitIdKey) == Ok(r.value.repoCommitId)
    ensures r.Ok? <==>
              && CreateRequest(cfg).Ok?
              && ArchivePayload(cfg, ctx.files).Ok?
              && GetString(cfg, ProjectKey).Ok?
              && (ArchivePayload(cfg, ctx.files).value.Some? || GetString(cfg, ProjectKey).value.Some?)
              && GetOrg(cfg, ctx.projectOrg).Ok?
              && GetRepo(cfg).Ok?
              && GetString(cfg, RepoBranchOrTagKey).Ok?
              && GetString(cfg, RepoCommitIdKey).Ok?
  {
    var request :- CreateRequest(cfg);
    var archive :- ArchivePayload(cfg, ctx.files);
    var project :- GetString(cfg, ProjectKey);
    if project.None? && archive.None? then Err(PayloadOrProjectRequired)
    else
      var org :- GetOrg(cfg, ctx.projectOrg);
      var repo :- GetRepo(cfg);
      var repoBranchOrTag :- GetString(cfg, RepoBranchOrTagKey);
      var repoCommitId :- GetString(cfg, RepoCommitIdKey);
      Ok(StartInput(archive, request, org, project, repo, repoBranchOrTag, repoCommitId, parent))
  }

  /** `getOutVars` for a process: its `out.json` attachment, the empty map when there is none (404). */
  function OutVars(cfg: Config, id: string, svc: Service): (r: Config)
    ensures OutVarsKey !in cfg ==> r == map[]
    ensures OutVarsKey in cfg && id in svc.outVars ==> r == svc.outVars[id]
    ensures id !in svc.outVars ==> r == map[]
  {
    if OutVarsKey in cfg && id in svc.outVars then svc.outVars[id] else map[]
  }

  /** `handleResults` on the results of waiting for `jobs`, visited in their first-occurrence order. */
  function Checked(cfg: Config, m: map<string, ProcessEntry>, jobs: seq<string>, show: Config -> string)
    : Result<(), Failure>
    requires forall id :: id in m <==> id in jobs
  {
    DedupEnumerates(jobs, m);
    Results.HandleResults(cfg, m, Dedup(jobs), show)
  }

  /**
   * The blocking end of a synchronous start: wait for the children with no
   * time limit, check their results, then store the first child's output
   * variables in `jobOut`.
   */
  function Finish(ctx: Ctx, cfg: Config, jobs: seq<string>, svc: Service, show: Config -> string): (r: Outcome)
    requires |jobs| > 0
    ensures r.failure.None? ==> r.ctx == ctx.(vars := ctx.vars[JobOutKey := VMap(OutVars(cfg, jobs[0], svc))])
    ensures r.failure.Some? ==> r.ctx == ctx
    ensures Waiter.WaitFor(jobs, svc, -1).Err? ==> r.failure == Some(Waiter.WaitFor(jobs, svc, -1).error)
    ensures r.failure.None? <==>
              && Waiter.WaitFor(jobs, svc, -1).Ok?
              && Checked(cfg, Waiter.WaitFor(jobs, svc, -1).value, jobs, show).Ok?
    ensures r.failure.Some? ==> !r.failure.value.WaitTimeout?
  {
    match Waiter.WaitFor(jobs, svc, -1)
    case Err(f) => Outcome(ctx, Some(f))
    case Ok(m) =>
      match Checked(cfg, m, jobs, show)
      case Err(f) => Outcome(ctx, Some(f))
      case Ok(_) => Outcome(ctx.(vars := ctx.vars[JobOutKey := VMap(OutVars(cfg, jobs[0], svc))]), None)
  }

  /**
   * `suspend`: registers a wait condition for the children, then marks the
   * context and parks the process on the resume event.
   */
  function Suspend(ctx: Ctx, jobs: seq<string>, svc: Service): (r: Outcome)
    ensures !svc.acceptsWaitCondition ==> r == Outcome(ctx, Some(RemoteCallFailed))
    ensures svc.acceptsWaitCondition ==>
              && r.failure.None?
              && r.ctx.suspended == Some(WaitCondition(jobs, ResumeEvent))
              && GetBool(r.ctx.vars, SuspendMarker, false) == Ok(true)
              && (forall k :: k != SuspendMarker ==> (k in r.ctx.vars <==> k in ctx.vars))
              && (forall k :: k in ctx.vars && k != SuspendMarker ==> r.ctx.vars[k] == ctx.vars[k])
              && r.ctx == ctx.(vars := r.ctx.vars, suspended := r.ctx.suspended)
  {
    if !svc.acceptsWaitCondition then Outcome(ctx, Some(RemoteCallFailed))
    else Outcome(ctx.(vars := ctx.vars[SuspendMarker := VBool(true)],
                      suspended := Some(WaitCondition(jobs, ResumeEvent))), None)
  }

  /**
   * What `start` does once the process was started as `id`: store the id in
   * `jobs`, then, for a synchronous start, suspend or wait.
   */
  function Launched(ctx: Ctx, cfg: Config, id: string, sync: bool, svc: Service, show: Config -> string)
    : (r: Outcome)
    ensures !sync ==> r == Outcome(ctx.(vars := ctx.vars[JobsKey := StrList([id])]), None)
    ensures sync && GetBool(cfg, SuspendKey, false) == Ok(true) && svc.acceptsWaitCondition ==>
              && r.failure.None?
              && r.ctx == ctx.(vars := ctx.vars[JobsKey := StrList([id])][SuspendMarker := VBool(true)],
                               suspended := Some(WaitCondition([id], ResumeEvent)))
    ensures sync && GetBool(cfg, SuspendKey, false) == Ok(true) && !svc.acceptsWaitCondition ==>
              r == Outcome(ctx.(vars := ctx.vars[JobsKey := StrList([id])]), Some(RemoteCallFailed))
    ensures sync && GetBool(cfg, SuspendKey, false) == Ok(false) ==>
              r == Finish(ctx.(vars := ctx.vars[JobsKey := StrList([id])]), cfg, [id], svc, show)
    ensures r.failure.None? ==> JobsKey in r.ctx.vars && r.ctx.vars[JobsKey] == StrList([id])
  {
    var started := ctx.(vars := ctx.vars[JobsKey := StrList([id])]);
    if !sync then Outcome(started, None)
    else
      match GetBool(cfg, SuspendKey, false)
      case Err(f) => Outcome(started, Some(f))
      case Ok(suspend) =>
        if suspend then Suspend(started, [id], svc)
        else Finish(started, cfg, [id], svc, show)
  }

  /**
   * `start`: validates the configuration, starts the process and stores its
   * id in `jobs`; a synchronous start then either suspends or waits. Nothing
   * changes before the service accepted the start request.
   */
  function StartProcess(ctx: Ctx, parent: Option<string>, defaults: Option<Config>, svc: Service, show: Config -> string)
    : (r: Outcome)
    ensures var cfg := CreateJobCfg(ctx.jobBase, defaults);
            StartInputOf(cfg, ctx, parent).Err? ==> r == Outcome(ctx, Some(StartInputOf(cfg, ctx, parent).error))
    ensures var cfg := CreateJobCfg(ctx.jobBase, defaults);
            GetBool(cfg, SyncKey, false).Err? ==> r.ctx == ctx && r.failure.Some?
    ensures svc.startId.None? ==> r.ctx == ctx && r.failure.Some?
    ensures var cfg := CreateJobCfg(ctx.jobBase, defaults);
            StartInputOf(cfg, ctx, parent).Ok? && GetBool(cfg, SyncKey, false).Ok? && svc.startId.Some? ==>
              r == Launched(ctx, cfg, svc.startId.value, GetBool(cfg, SyncKey, false).value, svc, show)
  {
    var cfg := CreateJobCfg(ctx.jobBase, defaults);
    match StartInputOf(cfg, ctx, parent)
    case Err(f) => Outcome(ctx, Some(f))
    case Ok(_) =>
      match GetBool(cfg, SyncKey, false)
      case Err(f) => Outcome(ctx, Some(f))
      case Ok(sync) =>
        match svc.startId
        case None => Outcome(ctx, Some(RemoteCallFailed))
        case Some(id) => Launched(ctx, cfg, id, sync, svc, show)
  }

  /**
   * `continueAfterSuspend`: on resumption, waits for the stored children,
   * checks their results, stores the output variables and clears the marker.
   */
  function ContinueAfterSuspend(ctx: Ctx, defaults: Option<Config>, svc: Service, show: Config -> string)
    : (r: Outcome)
    ensures JobsOf(ctx.vars).Err? ==> r == Outcome(ctx, Some(MissingJobs))
    ensures r.failure.Some? ==> r.ctx == ctx
    ensures r.failure.None? ==>
              && JobsOf(ctx.vars).Ok?
              && r.ctx == ctx.(vars := (ctx.vars[JobOutKey := VMap(OutVars(CreateJobCfg(ctx.jobBase, defaults),
                                                                           JobsOf(ctx.vars).value[0], svc))])
                                       - {SuspendMarker})
    ensures r.failure.None? ==> SuspendMarker !in r.ctx.vars
  {
    var cfg := CreateJobCfg(ctx.jobBase, defaults);
    match JobsOf(ctx.vars)
    case Err(f) => Outcome(ctx, Some(f))
    case Ok(jobs) =>
      var done := Finish(ctx, cfg, jobs, svc, show);
      if done.failure.Some? then done
      else Outcome(done.ctx.(vars := done.ctx.vars - {SuspendMarker}), None)
  }

  /**
   * `fork`: forks the jobs and stores the new processes' ids in `jobs`; a
   * failed fork leaves the context as it was.
   */
  function ForkProcesses(ctx: Ctx, svc: Service): (r: Outcome)
    ensures var forked := Launcher.ForkAction(ctx.vars, ctx.jobBase, ctx.txId, svc);
            && r.failure == forked.failure
            && (r.failure.Some? ==> r.ctx == ctx)
            && (r.failure.None? ==>
                  && r.ctx == ctx.(vars := ctx.vars[JobsKey := StrList(Launcher.IdsOfForks(forked.done))])
                  && Launcher.IdsOfForks(forked.done) <= svc.forkIds)
  {
    var forked := Launcher.ForkAction(ctx.vars, ctx.jobBase, ctx.txId, svc);
    if forked.failure.Some? then Outcome(ctx, forked.failure)
    else Outcome(ctx.(vars := ctx.vars[JobsKey := StrList(Launcher.IdsOfForks(forked.done))]), None)
  }

  /** `execute`: dispatches on the `action` variable. */
  function Execute(ctx: Ctx, defaults: Option<Config>, svc: Service, show: Config -> string): (r: Outcome)
    ensures GetAction(ctx.vars).Err? ==> r == Outcome(ctx, Some(GetAction(ctx.vars).error))
    ensures GetAction(ctx.vars) == Ok(Start) && GetBool(ctx.vars, SuspendMarker, false) == Ok(true)
            ==> r == ContinueAfterSuspend(ctx, defaults, svc, show)
    ensures GetAction(ctx.vars) == Ok(Start) && GetBool(ctx.vars, SuspendMarker, false) == Ok(false)
            ==> r == StartProcess(ctx, Some(ctx.txId), defaults, svc, show)
    ensures GetAction(ctx.vars) == Ok(StartExternal) ==>
              r == if Get(ctx.vars, ApiKeyKey).Some? && Get(ctx.vars, ApiKeyKey).value.VStr?
                   then StartProcess(ctx, None, defaults, svc, show)
                   else Outcome(ctx, Some(Required(ApiKeyKey)))
    ensures GetAction(ctx.vars) == Ok(Kill) ==>
              r == Outcome(ctx, Launcher.Kill(ctx.taskCfg, svc).failure)
    ensures GetAction(ctx.vars) == Ok(Fork) ==> r == ForkProcesses(ctx, svc)
  {
    match GetAction(ctx.vars)
    case Err(f) => Outcome(ctx, Some(f))
    case Ok(Start) =>
      (match GetBool(ctx.vars, SuspendMarker, false)
       case Err(f) => Outcome(ctx, Some(f))
       case Ok(marked) =>
         if marked then ContinueAfterSuspend(ctx, defaults, svc, show)
         else StartProcess(ctx, Some(ctx.txId), defaults, svc, show))
    case Ok(StartExternal) =>
      if Get(ctx.vars, ApiKeyKey).Some? && Get(ctx.vars, ApiKeyKey).value.VStr?
      then StartProcess(ctx, None, defaults, svc, show)
      else Outcome(ctx, Some(Required(ApiKeyKey)))
    case Ok(Fork) =>
      ForkProcesses(ctx, svc)
    case Ok(Kill) =>
      Outcome(ctx, Launcher.Kill(ctx.taskCfg, svc).failure)
  }

  /** What the runtime does when the resume event arrives: the process is no longer parked. */
  function Resume(ctx: Ctx): (r: Ctx)
    ensures r.suspended.None? && r.vars == ctx.vars
  {
    ctx.(suspended := None)
  }

  /** The ids stored in `jobs` read back unchanged. */
  lemma JobsRoundTrip(vars: Config, ids: seq<string>)
    requires |ids| > 0
    ensures JobsOf(vars[JobsKey := StrList(ids)]) == Ok(ids)
  {
    var es := StrList(ids).elems;
    assert StringsOf(es).Some?;
    assert StringsOf(es).value == ids;
  }

  /** Removing a key that neither update touched leaves the other context variables as they were. */
  lemma UpdatedAndRemoved(m: Config, j: string, v: Value, k: string)
    requires k != j
    ensures forall x :: x != j && x != k ==> Get(m[j := v] - {k}, x) == Get(m, x)
  {
  }

  /** After a completed resumption the marker is gone, so the next `start` launches a new process. */
  lemma NextStartLaunchesAnew(ctx: Ctx, defaults: Option<Config>, svc: Service, show: Config -> string)
    requires ContinueAfterSuspend(ctx, defaults, svc, show).failure.None?
    requires GetAction(ctx.vars) == Ok(Start)
    ensures var after := ContinueAfterSuspend(ctx, defaults, svc, show).ctx;
            Execute(after, defaults, svc, show) == StartProcess(after, Some(ctx.txId), defaults, svc, show)
  {
    var after := ContinueAfterSuspend(ctx, defaults, svc, show).ctx;
    var out := VMap(OutVars(CreateJobCfg(ctx.jobBase, defaults), JobsOf(ctx.vars).value[0], svc));
    assert after.vars == ctx.vars[JobOutKey := out] - {SuspendMarker};
    UpdatedAndRemoved(ctx.vars, JobOutKey, out, SuspendMarker);
    assert GetAction(after.vars) == GetAction(ctx.vars);
  }

  /** Marking, then storing the output, then unmarking leaves what storing the output alone leaves. */
  lemma MarkerErased(m: Config, jobs: Value, out: Value)
    requires SuspendMarker !in m
    ensures m[JobsKey := jobs][SuspendMarker := VBool(true)][JobOutKey := out] - {SuspendMarker}
            == m[JobsKey := jobs][JobOutKey := out]
  {
  }

  /** The parked context a suspending `start` leaves, read back on resumption: still `start`, marked, one child. */
  lemma ParkedReadsBack(ctx: Ctx, id: string)
    requires SuspendMarker !in ctx.vars
    ensures var vars := ctx.vars[JobsKey := StrList([id])][SuspendMarker := VBool(true)];
            && Get(vars, ActionKey) == Get(ctx.vars, ActionKey)
            && GetBool(vars, SuspendMarker, false) == Ok(true)
            && JobsOf(vars) == Ok([id])
  {
    var vars := ctx.vars[JobsKey := StrList([id])][SuspendMarker := VBool(true)];
    assert Get(vars, JobsKey) == Some(StrList([id]));
    JobsRoundTrip(ctx.vars, [id]);
  }

  /**
   * Suspending and resuming ends as waiting in place would: the same error,
   * and on success the same context; a failed resumption keeps the marker, so
   * the next `start` resumes again.
   */
  lemma SuspendResumeMatchesBlocking(ctx: Ctx, defaults: Option<Config>, svc: Service, show: Config -> string)
    requires ctx.suspended.None? && SuspendMarker !in ctx.vars
    requires GetAction(ctx.vars) == Ok(Start)
    requires var cfg := CreateJobCfg(ctx.jobBase, defaults);
             GetBool(cfg, SyncKey, false) == Ok(true) && GetBool(cfg, SuspendKey, false) == Ok(true)
    requires Execute(ctx, defaults, svc, show).failure.None?
    ensures var parked := Execute(ctx, defaults, svc, show).ctx;
            var resumed := Execute(Resume(parked), defaults, svc, show);
            var cfg := CreateJobCfg(ctx.jobBase, defaults);
            var id := svc.startId.value;
            var blocking := Finish(ctx.(vars := ctx.vars[JobsKey := StrList([id])]), cfg, [id], svc, show);
            && parked.suspended == Some(WaitCondition([id], ResumeEvent))
            && resumed.failure == blocking.failure
            && (resumed.failure.None? ==> resumed.ctx == blocking.ctx)
            && (resumed.failure.Some? ==> GetBool(resumed.ctx.vars, SuspendMarker, false) == Ok(true))
  {
    var cfg := CreateJobCfg(ctx.jobBase, defaults);
    var first := Execute(ctx, defaults, svc, show);
    assert first == StartProcess(ctx, Some(ctx.txId), defaults, svc, show);
    var id := svc.startId.value;
    var jobs := StrList([id]);
    assert first == Launched(ctx, cfg, id, true, svc, show);
    var back := Resume(first.ctx);
    assert back == ctx.(vars := ctx.vars[JobsKey := jobs][SuspendMarker := VBool(true)]);
    ParkedReadsBack(ctx, id);
    ResumedStep(ctx, back, defaults, svc, show, id);
  }

  /** The resumption step of the above: the stored child is waited for as the blocking start would. */
  lemma ResumedStep(ctx: Ctx, back: Ctx, defaults: Option<Config>, svc: Service, show: Config -> string, id: string)
    requires SuspendMarker !in ctx.vars
    requires back == ctx.(vars := ctx.vars[JobsKey := StrList([id])][SuspendMarker := VBool(true)])
    requires GetAction(back.vars) == Ok(Start)
    requires GetBool(back.vars, SuspendMarker, false) == Ok(true) && JobsOf(back.vars) == Ok([id])
    ensures var resumed := Execute(back, defaults, svc, show);
            var cfg := CreateJobCfg(ctx.jobBase, defaults);
            var blocking := Finish(ctx.(vars := ctx.vars[JobsKey := StrList([id])]), cfg, [id], svc, show);
            && resumed.failure == blocking.failure
            && (resumed.failure.None? ==> resumed.ctx == blocking.ctx)
            && (resumed.failure.Some? ==> resumed.ctx == back)
  {
    var cfg := CreateJobCfg(ctx.jobBase, defaults);
    var resumed := Execute(back, defaults, svc, show);
    assert resumed == ContinueAfterSuspend(back, defaults, svc, show);
    var blocking := Finish(ctx.(vars := ctx.vars[JobsKey := StrList([id])]), cfg, [id], svc, show);
    var viaSuspend := Finish(back, cfg, [id], svc, show);
    assert viaSuspend.failure == blocking.failure;
    if blocking.failure.None? {
      MarkerErased(ctx.vars, StrList([id]), VMap(OutVars(cfg, id, svc)));
    }
  }

  /** A `start` with neither a payload nor a project is rejected before any request, and nothing changes. */
  lemma StartNeedsPayloadOrProject(ctx: Ctx, parent: Option<string>, defaults: Option<Config>, svc: Service,
                                   show: Config -> string)
    requires var cfg := CreateJobCfg(ctx.jobBase, defaults);
             CreateRequest(cfg).Ok? && Get(cfg, PayloadKey) == None && Get(cfg, ArchiveKey) == None
             && Get(cfg, ProjectKey) == None
    ensures StartProcess(ctx, parent, defaults, svc, show) == Outcome(ctx, Some(PayloadOrProjectRequired))
  {
  }

  /** An unknown action name is rejected and nothing changes. */
  lemma UnknownActionRejected(ctx: Ctx, name: string, defaults: Option<Config>, svc: Service, show: Config -> string)
    requires Get(ctx.vars, ActionKey) == Some(VStr(name))
    requires forall a: Action :: Text.Upper(Text.Trim(name)) != ActionName(a)
    ensures Execute(ctx, defaults, svc, show) == Outcome(ctx, Some(UnknownAction(name)))
  {
  }
}
