/**
 * The fork and kill actions: fanning a list of job specifications out into
 * one fork request per instance, and turning the `instanceId` argument into
 * kill requests, each optionally followed by a bounded wait.
 */
module Launcher {
  import opened Wrappers
  import opened Values
  import opened Remote
  import opened TaskConfig
  import Waiter
  import opened Seqs

  /** How long a synchronous kill waits for the killed process, in milliseconds. */
  const DefaultKillTimeout := 10000

  /** The requests a sequence of remote calls made before stopping, and the error that stopped it. */
  datatype Report<T> = Report(done: seq<T>, failure: Option<Failure>)

  /** One forked process: the job it was made for, its id, and the request sent. */
  datatype Forked = Forked(job: nat, id: string, request: Request, sync: bool)

  /** An element of the job list that the for-each's cast to a map accepts: a map, or null. */
  predicate IsJob(v: Value) {
    v.VMap? || v.VNull?
  }

  /**
   * The configuration of one job in `forkMany`: `createJobCfg` of the element
   * (null leaves the task's settings alone), parented to this process.
   */
  function ForkCfg(base: Config, job: Value, txId: string): (r: Config)
    requires IsJob(job)
    ensures InstanceIdKey in r && r[InstanceIdKey] == VUuid(txId)
    ensures forall e :: job == VMap(e) ==>
              forall k :: k in e && k != InstanceIdKey ==> k in r && r[k] == e[k]
    ensures forall k :: k in base && k != InstanceIdKey && (job.VNull? || k !in job.entries) ==>
              k in r && r[k] == base[k]
    ensures forall k :: k in r ==> k == InstanceIdKey || k in base || (job.VMap? && k in job.entries)
  {
    CreateJobCfg(base, if job.VMap? then Some(job.entries) else None)[InstanceIdKey := VUuid(txId)]
  }

  /** `forkOne` up to the remote call: the entry point check, the request, the sync flag. */
  function PrepareFork(cfg: Config): (r: Result<(Request, bool), Failure>)
    ensures EntryPointKey !in cfg ==> r == Err(EntryPointRequired)
    ensures r.Ok? ==> EntryPointKey in cfg && CreateRequest(cfg) == Ok(r.value.0)
    ensures r.Ok? ==> GetBool(cfg, SyncKey, false) == Ok(r.value.1)
  {
    if EntryPointKey !in cfg then Err(EntryPointRequired)
    else
      var req :- CreateRequest(cfg);
      var sync :- GetBool(cfg, SyncKey, false);
      Ok((req, sync))
  }

  /** `forkOne`: a fork request for job `j`, given the id at the head of `avail` by the service. */
  function ForkOne(cfg: Config, j: nat, avail: seq<string>): (r: Result<Forked, Failure>)
    ensures r.Ok? ==> |avail| > 0 && r.value.id == avail[0] && r.value.job == j
    ensures PrepareFork(cfg).Err? ==> r == Err(PrepareFork(cfg).error)
  {
    var (req, sync) :- PrepareFork(cfg);
    if |avail| > 0 then Ok(Forked(j, avail[0], req, sync)) else Err(RemoteCallFailed)
  }

  /** The ids of a sequence of forks. */
  function IdsOfForks(fs: seq<Forked>): (r: seq<string>)
    ensures |r| == |fs|
    ensures forall i :: 0 <= i < |fs| ==> r[i] == fs[i].id
  {
    if |fs| == 0 then [] else [fs[0].id] + IdsOfForks(fs[1..])
  }

  /** The `n` forks of job `j`; `avail` holds the ids the service gives to the coming fork requests. */
  function ForkInstances(cfg: Config, j: nat, n: nat, avail: seq<string>): (r: Report<Forked>)
    ensures |r.done| <= n
    ensures r.failure.None? ==> |r.done| == n
    ensures IdsOfForks(r.done) <= avail
    ensures forall i :: 0 <= i < |r.done| ==> r.done[i].job == j
    ensures n > 0 && PrepareFork(cfg).Err? ==> r == Report([], Some(PrepareFork(cfg).error))
    decreases n
  {
    if n == 0 then Report([], None)
    else match ForkOne(cfg, j, avail)
      case Err(f) => Report([], Some(f))
      case Ok(fk) =>
        var rest := ForkInstances(cfg, j, n - 1, avail[1..]);
        assert IdsOfForks([fk] + rest.done) == [avail[0]] + IdsOfForks(rest.done);
        PrefixAppend([avail[0]], IdsOfForks(rest.done), avail);
        Report([fk] + rest.done, rest.failure)
  }

  /** The number of leading elements the for-each's cast accepts: the position of the first other element. */
  function JobPrefix(jobs: seq<Value>): (k: nat)
    ensures k <= |jobs|
    ensures forall j :: 0 <= j < k ==> IsJob(jobs[j])
    ensures k < |jobs| ==> !IsJob(jobs[k])
  {
    if |jobs| == 0 || !IsJob(jobs[0]) then 0
    else
      assert forall j :: 0 < j < |jobs| ==> jobs[j] == jobs[1..][j - 1];
      1 + JobPrefix(jobs[1..])
  }

  /** The configurations `forkMany` builds, one per job, up to the first element the cast rejects. */
  function ForkCfgs(jobs: seq<Value>, base: Config, txId: string): (r: seq<Config>)
    ensures |r| <= |jobs|
    ensures forall j :: 0 <= j < |r| ==> IsJob(jobs[j]) && r[j] == ForkCfg(base, jobs[j], txId)
    ensures |r| < |jobs| ==> !IsJob(jobs[|r|])
  {
    var k := JobPrefix(jobs);
    seq(k, j requires 0 <= j < k => ForkCfg(base, jobs[j], txId))
  }

  /** The forks of the jobs from index `j` on; `avail` holds the ids the service gives to the coming fork requests. */
  function ForkJobs(cfgs: seq<Config>, j: nat, avail: seq<string>): (r: Report<Forked>)
    requires j <= |cfgs|
    ensures IdsOfForks(r.done) <= avail
    ensures forall i :: 0 <= i < |r.done| ==> j <= r.done[i].job < |cfgs|
    ensures forall i, i' :: 0 <= i < i' < |r.done| ==> r.done[i].job <= r.done[i'].job
    decreases |cfgs| - j
  {
    if j == |cfgs| then Report([], None)
    else
      match GetInstances(cfgs[j])
      case Err(f) => Report([], Some(f))
      case Ok(n) =>
        var mine := ForkInstances(cfgs[j], j, n, avail);
        if mine.failure.Some? then mine
        else
          var rest := ForkJobs(cfgs, j + 1, avail[n..]);
          ForksAppend(mine.done, rest.done, avail, j);
          Report(mine.done + rest.done, rest.failure)
  }

  lemma IdsOfForksAppend(x: seq<Forked>, y: seq<Forked>)
    ensures IdsOfForks(x + y) == IdsOfForks(x) + IdsOfForks(y)
  {
  }

  lemma PrefixAppend(x: seq<string>, y: seq<string>, avail: seq<string>)
    requires x <= avail && y <= avail[|x|..]
    ensures x + y <= avail
  {
    assert avail == avail[..|x|] + avail[|x|..];
  }

  lemma JobsSortedAppend(mine: seq<Forked>, rest: seq<Forked>, j: nat)
    requires forall i :: 0 <= i < |mine| ==> mine[i].job == j
    requires forall i :: 0 <= i < |rest| ==> j < rest[i].job
    requires forall i, i' :: 0 <= i < i' < |rest| ==> rest[i].job <= rest[i'].job
    ensures forall i, i' :: 0 <= i < i' < |mine + rest| ==> (mine + rest)[i].job <= (mine + rest)[i'].job
  {
  }

  lemma ForksAppend(mine: seq<Forked>, rest: seq<Forked>, avail: seq<string>, j: nat)
    requires IdsOfForks(mine) <= avail && IdsOfForks(rest) <= avail[|mine|..]
    requires forall i :: 0 <= i < |mine| ==> mine[i].job == j
    requires forall i :: 0 <= i < |rest| ==> j < rest[i].job
    requires forall i, i' :: 0 <= i < i' < |rest| ==> rest[i].job <= rest[i'].job
    ensures IdsOfForks(mine + rest) <= avail
    ensures forall i, i' :: 0 <= i < i' < |mine + rest| ==> (mine + rest)[i].job <= (mine + rest)[i'].job
  {
    IdsOfForksAppend(mine, rest);
    PrefixAppend(IdsOfForks(mine), IdsOfForks(rest), avail);
    JobsSortedAppend(mine, rest, j);
  }

  /**
   * `forkMany`: every job's instances, in job order; the ids are the ones the
   * service gives to successive fork requests. An element that is neither a
   * map nor null fails the cast when the loop reaches it, after the earlier
   * jobs' forks were sent.
   */
  function ForkMany(jobs: seq<Value>, base: Config, txId: string, svc: Service): (r: Report<Forked>)
    ensures IdsOfForks(r.done) <= svc.forkIds
    ensures forall i :: 0 <= i < |r.done| ==> r.done[i].job < |jobs| && IsJob(jobs[r.done[i].job])
    ensures forall i, i' :: 0 <= i < i' < |r.done| ==> r.done[i].job <= r.done[i'].job
    ensures r.failure.None? ==> forall j :: 0 <= j < |jobs| ==> IsJob(jobs[j])
  {
    var cfgs := ForkCfgs(jobs, base, txId);
    var r := ForkJobs(cfgs, 0, svc.forkIds);
    if r.failure.None? && |cfgs| < |jobs| then Report(r.done, Some(NotMap(ForksKey))) else r
  }

  /** The number of instances a job configuration asks for, 0 when it names no valid number. */
  function InstancesOf(cfg: Config): nat {
    match GetInstances(cfg)
    case Ok(n) => n
    case Err(_) => 0
  }

  /** The total number of instances the jobs before index `j` ask for. */
  function Offset(cfgs: seq<Config>, j: nat): nat
    requires j <= |cfgs|
  {
    if j == 0 then 0 else Offset(cfgs, j - 1) + InstancesOf(cfgs[j - 1])
  }

  lemma {:induction false} OffsetMonotone(cfgs: seq<Config>, a: nat, b: nat)
    requires a <= b <= |cfgs|
    ensures Offset(cfgs, a) <= Offset(cfgs, b)
    decreases b - a
  {
    if a < b {
      OffsetMonotone(cfgs, a, b - 1);
    }
  }

  /** Job `J`'s forks in `done` sit exactly between the offsets of `J` and `J + 1`, counted from job `j`. */
  ghost predicate Laid(done: seq<Forked>, cfgs: seq<Config>, j: nat)
    requires j <= |cfgs|
  {
    && |done| == Offset(cfgs, |cfgs|) - Offset(cfgs, j)
    && forall i :: 0 <= i < |done| ==>
         && j <= done[i].job < |cfgs|
         && Offset(cfgs, done[i].job) - Offset(cfgs, j) <= i < Offset(cfgs, done[i].job + 1) - Offset(cfgs, j)
  }

  lemma LaidAppend(mine: seq<Forked>, rest: seq<Forked>, cfgs: seq<Config>, j: nat)
    requires j < |cfgs|
    requires |mine| == InstancesOf(cfgs[j])
    requires forall i :: 0 <= i < |mine| ==> mine[i].job == j
    requires Laid(rest, cfgs, j + 1)
    ensures Laid(mine + rest, cfgs, j)
  {
    var n := |mine|;
    var done := mine + rest;
    assert Offset(cfgs, j + 1) == Offset(cfgs, j) + n;
    OffsetMonotone(cfgs, j + 1, |cfgs|);
    forall i | 0 <= i < |done|
      ensures j <= done[i].job < |cfgs|
      ensures Offset(cfgs, done[i].job) - Offset(cfgs, j) <= i < Offset(cfgs, done[i].job + 1) - Offset(cfgs, j)
    {
      if i < n {
        assert done[i] == mine[i];
      } else {
        assert done[i] == rest[i - n];
        OffsetMonotone(cfgs, j + 1, done[i].job);
      }
    }
  }

  /** One step of `ForkJobs` that did not fail: job `j`'s forks followed by the later jobs' forks. */
  lemma ForkJobsStep(cfgs: seq<Config>, j: nat, avail: seq<string>)
    requires j < |cfgs|
    requires ForkJobs(cfgs, j, avail).failure.None?
    ensures GetInstances(cfgs[j]).Ok?
    ensures var n := GetInstances(cfgs[j]).value;
            var mine := ForkInstances(cfgs[j], j, n, avail);
            && mine.failure.None?
            && |mine.done| == InstancesOf(cfgs[j])
            && ForkJobs(cfgs, j + 1, avail[n..]).failure.None?
            && ForkJobs(cfgs, j, avail).done == mine.done + ForkJobs(cfgs, j + 1, avail[n..]).done
  {
  }

  /** The forks made from job `j` on, when none failed, are laid out job by job. */
  lemma {:induction false} ForkJobsLayout(cfgs: seq<Config>, j: nat, avail: seq<string>)
    requires j <= |cfgs|
    requires ForkJobs(cfgs, j, avail).failure.None?
    ensures Laid(ForkJobs(cfgs, j, avail).done, cfgs, j)
    decreases |cfgs| - j
  {
    if j < |cfgs| {
      ForkJobsStep(cfgs, j, avail);
      var n := GetInstances(cfgs[j]).value;
      var mine := ForkInstances(cfgs[j], j, n, avail).done;
      var rest := ForkJobs(cfgs, j + 1, avail[n..]).done;
      ForkJobsLayout(cfgs, j + 1, avail[n..]);
      LaidAppend(mine, rest, cfgs, j);
    }
  }

  /** The job configuration names a valid number of instances. */
  predicate Counted(cfg: Config) {
    GetInstances(cfg).Ok?
  }

  /** Every job configuration from index `j` on names a valid number of instances. */
  predicate CountedFrom(cfgs: seq<Config>, j: nat)
    decreases |cfgs| - j
  {
    j >= |cfgs| || (Counted(cfgs[j]) && CountedFrom(cfgs, j + 1))
  }

  lemma {:induction false} CountedFromEach(cfgs: seq<Config>, j: nat)
    requires CountedFrom(cfgs, j)
    ensures forall J :: j <= J < |cfgs| ==> Counted(cfgs[J])
    decreases |cfgs| - j
  {
    if j < |cfgs| {
      CountedFromEach(cfgs, j + 1);
    }
  }

  /** When no fork failed, every job from `j` on named a valid instance count. */
  lemma {:induction false} ForkJobsValidInstances(cfgs: seq<Config>, j: nat, avail: seq<string>)
    requires j <= |cfgs|
    requires ForkJobs(cfgs, j, avail).failure.None?
    ensures CountedFrom(cfgs, j)
    decreases |cfgs| - j
  {
    if j < |cfgs| {
      ForkJobsStep(cfgs, j, avail);
      var n := GetInstances(cfgs[j]).value;
      ForkJobsValidInstances(cfgs, j + 1, avail[n..]);
    }
  }

  /**
   * `forkMany` without a failure makes, for each job in order, a contiguous
   * block of exactly as many forks as the job's `instances`; their count is
   * the sum over all jobs.
   */
  lemma ForkManyLayout(jobs: seq<Value>, base: Config, txId: string, svc: Service)
    requires ForkMany(jobs, base, txId, svc).failure.None?
    ensures |ForkCfgs(jobs, base, txId)| == |jobs|
    ensures Blocks(ForkMany(jobs, base, txId, svc).done, ForkCfgs(jobs, base, txId))
  {
    ForkManyUnfailed(jobs, base, txId, svc);
    ForkAllLayout(ForkCfgs(jobs, base, txId), svc.forkIds);
  }

  /**
   * `done` is laid out job by job: every job named a valid instance count,
   * there are as many forks as the counts add up to, and job `j`'s forks sit
   * between the sum of the counts before `j` and the sum up to `j`.
   */
  ghost predicate Blocks(done: seq<Forked>, cfgs: seq<Config>) {
    && (forall j :: 0 <= j < |cfgs| ==> Counted(cfgs[j]))
    && |done| == Offset(cfgs, |cfgs|)
    && forall i :: 0 <= i < |done| ==>
         done[i].job < |cfgs| && Offset(cfgs, done[i].job) <= i < Offset(cfgs, done[i].job + 1)
  }

  /** The layout of a whole fan-out over job configurations that did not fail. */
  lemma ForkAllLayout(cfgs: seq<Config>, avail: seq<string>)
    requires ForkJobs(cfgs, 0, avail).failure.None?
    ensures Blocks(ForkJobs(cfgs, 0, avail).done, cfgs)
  {
    var done := ForkJobs(cfgs, 0, avail).done;
    ForkJobsLayout(cfgs, 0, avail);
    ForkJobsValidInstances(cfgs, 0, avail);
    JobLayout(done, cfgs);
  }

  /** A fan-out without a failure cast every element, and is the fan-out over all their configurations. */
  lemma ForkManyUnfailed(jobs: seq<Value>, base: Config, txId: string, svc: Service)
    requires ForkMany(jobs, base, txId, svc).failure.None?
    ensures |ForkCfgs(jobs, base, txId)| == |jobs|
    ensures ForkMany(jobs, base, txId, svc) == ForkJobs(ForkCfgs(jobs, base, txId), 0, svc.forkIds)
    ensures ForkJobs(ForkCfgs(jobs, base, txId), 0, svc.forkIds).failure.None?
  {
  }

  /**
   * An element the cast rejects stops the fan-out there: the jobs before it
   * are forked as if the list ended at it, and when none of their forks
   * failed, the cast's error is raised.
   */
  lemma NonJobStopsFork(jobs: seq<Value>, k: nat, base: Config, txId: string, svc: Service)
    requires k < |jobs| && !IsJob(jobs[k])
    requires forall j :: 0 <= j < k ==> IsJob(jobs[j])
    ensures ForkMany(jobs, base, txId, svc).done == ForkMany(jobs[..k], base, txId, svc).done
    ensures ForkMany(jobs, base, txId, svc).failure ==
            if ForkMany(jobs[..k], base, txId, svc).failure.None? then Some(NotMap(ForksKey))
            else ForkMany(jobs[..k], base, txId, svc).failure
  {
    ForkCfgsPrefix(jobs, k, base, txId);
  }

  /** The configurations of a list whose first `k` elements are jobs and whose `k`-th is not are those of its first `k`. */
  lemma ForkCfgsPrefix(jobs: seq<Value>, k: nat, base: Config, txId: string)
    requires k < |jobs| && !IsJob(jobs[k])
    requires forall j :: 0 <= j < k ==> IsJob(jobs[j])
    ensures ForkCfgs(jobs, base, txId) == ForkCfgs(jobs[..k], base, txId)
    ensures |ForkCfgs(jobs, base, txId)| == k
  {
    assert JobPrefix(jobs) == k;
    assert JobPrefix(jobs[..k]) == k;
  }

  /** A null job element forks with the task's own settings, as an unset `forks` list does. */
  lemma NullJobIsTaskSettings(base: Config, txId: string)
    ensures ForkCfg(base, VNull, txId) == ForkCfg(base, VMap(CreateJobCfg(base, None)), txId)
  {
    assert base + base == base;
  }

  /** A layout counted from the first job places each job's forks between the absolute offsets. */
  lemma JobLayout(done: seq<Forked>, cfgs: seq<Config>)
    requires Laid(done, cfgs, 0) && CountedFrom(cfgs, 0)
    ensures Blocks(done, cfgs)
  {
    assert Offset(cfgs, 0) == 0;
    CountedFromEach(cfgs, 0);
  }

  /** A job lacking `entryPoint` is rejected before any of its fork requests is sent. */
  lemma MissingEntryPointSendsNothing(cfgs: seq<Config>, j: nat, avail: seq<string>)
    requires j < |cfgs| && EntryPointKey !in cfgs[j]
    ensures ForkJobs(cfgs, j, avail).done == []
    ensures ForkJobs(cfgs, j, avail).failure.Some?
  {
  }

  /**
   * `fork`: the `forks` variable's job list, or one job made of the task's
   * own settings when it is unset; an empty list is rejected.
   */
  function ForkAction(vars: Config, base: Config, txId: string, svc: Service): (r: Report<Forked>)
    ensures GetList(vars, ForksKey).Err? ==> r == Report([], Some(GetList(vars, ForksKey).error))
    ensures GetList(vars, ForksKey) == Ok(Some([])) ==> r == Report([], Some(EmptyForks))
    ensures GetList(vars, ForksKey) == Ok(None) ==> r == ForkMany([VMap(CreateJobCfg(base, None))], base, txId, svc)
    ensures forall jobs :: GetList(vars, ForksKey) == Ok(Some(jobs)) && |jobs| > 0 ==> r == ForkMany(jobs, base, txId, svc)
  {
    match GetList(vars, ForksKey)
    case Err(f) => Report([], Some(f))
    case Ok(forks) =>
      var jobs := if forks.Some? then forks.value else [VMap(CreateJobCfg(base, None))];
      if |jobs| == 0 then Report([], Some(EmptyForks))
      else ForkMany(jobs, base, txId, svc)
  }

  /** The text of a string or a UUID element. */
  function IdText(v: Value): string
    requires v.VStr? || v.VUuid?
  {
    if v.VStr? then v.s else v.text
  }

  /** The ids held by a collection whose elements must all be strings or UUIDs. */
  function IdsOf(es: seq<Value>): (r: Result<seq<string>, Failure>)
    ensures r.Ok? <==> forall i :: 0 <= i < |es| ==> es[i].VStr? || es[i].VUuid?
    ensures r.Ok? ==> |r.value| == |es| && forall i :: 0 <= i < |es| ==> r.value[i] == IdText(es[i])
    ensures r.Err? ==> r.error == InvalidInstanceIdElement
  {
    if |es| == 0 then Ok([])
    else if !(es[0].VStr? || es[0].VUuid?) then Err(InvalidInstanceIdElement)
    else
      var rest :- IdsOf(es[1..]);
      assert forall i :: 0 < i < |es| ==> es[i] == es[1..][i - 1];
      Ok([IdText(es[0])] + rest)
  }

  /**
   * `kill(ctx, cfg)`'s reading of `instanceId`: a single string or UUID, an
   * array of either, or a collection of strings and UUIDs, in order.
   */
  function KillTargets(cfg: Config): (r: Result<seq<string>, Failure>)
    ensures forall s :: Get(cfg, InstanceIdKey) in {Some(VStr(s)), Some(VUuid(s))} ==> r == Ok([s])
    ensures forall ss :: Get(cfg, InstanceIdKey) in {Some(VStrArray(ss)), Some(VUuidArray(ss))} ==> r == Ok(ss)
    ensures Get(cfg, InstanceIdKey).Some? && Get(cfg, InstanceIdKey).value.IsCollection() ==>
              r == IdsOf(Get(cfg, InstanceIdKey).value.elems)
    ensures r.Err? ==> r.error in {InvalidInstanceIds, InvalidInstanceIdElement}
    ensures r == Err(InvalidInstanceIds) <==>
              Get(cfg, InstanceIdKey).None?
              || !(Get(cfg, InstanceIdKey).value.VStr? || Get(cfg, InstanceIdKey).value.VUuid?
                   || Get(cfg, InstanceIdKey).value.VStrArray? || Get(cfg, InstanceIdKey).value.VUuidArray?
                   || Get(cfg, InstanceIdKey).value.IsCollection())
  {
    match Get(cfg, InstanceIdKey)
    case Some(VStr(s)) => Ok([s])
    case Some(VUuid(u)) => Ok([u])
    case Some(VStrArray(ss)) => Ok(ss)
    case Some(VUuidArray(us)) => Ok(us)
    case Some(VList(es)) => IdsOf(es)
    case Some(VColl(es)) => IdsOf(es)
    case _ => Err(InvalidInstanceIds)
  }

  /** `killOne`: the kill request, then, for a synchronous kill, a wait bounded by `DefaultKillTimeout`. */
  function KillOne(cfg: Config, id: string, svc: Service): (r: Result<(), Failure>)
    ensures id in svc.refusedKills ==> r == Err(RemoteCallFailed)
    ensures id !in svc.refusedKills && GetBool(cfg, SyncKey, false) == Ok(false) ==> r == Ok(())
    ensures id !in svc.refusedKills && GetBool(cfg, SyncKey, false).Err? ==> r == Err(WrongType(SyncKey))
    ensures id !in svc.refusedKills && GetBool(cfg, SyncKey, false) == Ok(true) ==>
              && (r.Err? <==> Waiter.WaitFor([id], svc, DefaultKillTimeout).Err?)
              && (r.Err? ==> r.error == Waiter.WaitFor([id], svc, DefaultKillTimeout).error)
  {
    if id in svc.refusedKills then Err(RemoteCallFailed)
    else
      var sync :- GetBool(cfg, SyncKey, false);
      if sync then
        var _ :- Waiter.WaitFor([id], svc, DefaultKillTimeout);
        Ok(())
      else Ok(())
  }

  /** The position of the first process whose `killOne` fails, or the length of `ids` when none does. */
  function FirstFailedKill(cfg: Config, ids: seq<string>, svc: Service): (k: nat)
    ensures k <= |ids|
    ensures forall i :: 0 <= i < k ==> KillOne(cfg, ids[i], svc).Ok?
    ensures k < |ids| ==> KillOne(cfg, ids[k], svc).Err?
  {
    if |ids| == 0 || KillOne(cfg, ids[0], svc).Err? then 0
    else
      assert forall i :: 0 < i < |ids| ==> ids[i] == ids[1..][i - 1];
      1 + FirstFailedKill(cfg, ids[1..], svc)
  }

  /**
   * The processes whose kill request was accepted, in order, up to the first
   * error; that error is the one raised.
   */
  function KillEach(cfg: Config, ids: seq<string>, svc: Service): (r: Report<string>)
    ensures r.done <= ids
    ensures var k := FirstFailedKill(cfg, ids, svc);
            && (r.failure.None? <==> k == |ids|)
            && (k == |ids| ==> r.done == ids)
            && (k < |ids| ==>
                  && r.failure == Some(KillOne(cfg, ids[k], svc).error)
                  && |r.done| == (if ids[k] in svc.refusedKills then k else k + 1))
  {
    if |ids| == 0 then Report([], None)
    else match KillOne(cfg, ids[0], svc)
      case Err(f) => Report(if ids[0] in svc.refusedKills then [] else [ids[0]], Some(f))
      case Ok(_) =>
        var rest := KillEach(cfg, ids[1..], svc);
        var k' := FirstFailedKill(cfg, ids[1..], svc);
        assert FirstFailedKill(cfg, ids, svc) == k' + 1;
        assert k' < |ids| - 1 ==> ids[1..][k'] == ids[k' + 1];
        assert [ids[0]] + ids[1..] == ids;
        Report([ids[0]] + rest.done, rest.failure)
  }

  /** Every process's kill was accepted exactly when the whole list's kill raised nothing, and then all were killed. */
  lemma KillEachAllOk(cfg: Config, ids: seq<string>, svc: Service)
    ensures KillEach(cfg, ids, svc).failure.None? <==> forall i :: 0 <= i < |ids| ==> KillOne(cfg, ids[i], svc).Ok?
    ensures KillEach(cfg, ids, svc).failure.None? ==> KillEach(cfg, ids, svc).done == ids
  {
    var k := FirstFailedKill(cfg, ids, svc);
    if k < |ids| {
      assert KillOne(cfg, ids[k], svc).Err?;
    }
  }

  /** Killing a concatenation kills the first part, and goes on to the second only when the first raised nothing. */
  lemma {:induction false} KillEachConcat(cfg: Config, a: seq<string>, b: seq<string>, svc: Service)
    ensures KillEach(cfg, a + b, svc)
            == if KillEach(cfg, a, svc).failure.None?
               then Report(a + KillEach(cfg, b, svc).done, KillEach(cfg, b, svc).failure)
               else KillEach(cfg, a, svc)
    decreases |a|
  {
    if |a| == 0 {
      assert a + b == b;
    } else {
      var x := a[0];
      SplitHead(a, b);
      if KillOne(cfg, x, svc).Ok? {
        var kb := KillEach(cfg, b, svc);
        var ka := KillEach(cfg, a[1..], svc);
        var kab := KillEach(cfg, a[1..] + b, svc);
        KillEachCons(cfg, x, a[1..] + b, svc);
        KillEachCons(cfg, x, a[1..], svc);
        KillEachConcat(cfg, a[1..], b, svc);
        assert KillEach(cfg, a, svc) == Report([x] + ka.done, ka.failure);
        assert KillEach(cfg, a + b, svc) == Report([x] + kab.done, kab.failure);
        if ka.failure.None? {
          assert kab == Report(a[1..] + kb.done, kb.failure);
          ConcatAssoc([x], a[1..], kb.done);
        } else {
          assert kab == ka;
        }
      } else {
        KillEachHeadFails(cfg, x, a[1..] + b, svc);
        KillEachHeadFails(cfg, x, a[1..], svc);
      }
    }
  }

  /** An accepted first kill is followed by the kills of the rest. */
  lemma KillEachCons(cfg: Config, x: string, rest: seq<string>, svc: Service)
    requires KillOne(cfg, x, svc).Ok?
    ensures KillEach(cfg, [x] + rest, svc) == Report([x] + KillEach(cfg, rest, svc).done, KillEach(cfg, rest, svc).failure)
  {
    assert ([x] + rest)[0] == x && ([x] + rest)[1..] == rest;
  }

  /** A failing first kill ends the list, whatever follows it. */
  lemma KillEachHeadFails(cfg: Config, x: string, rest: seq<string>, svc: Service)
    requires KillOne(cfg, x, svc).Err?
    ensures KillEach(cfg, [x] + rest, svc)
            == Report(if x in svc.refusedKills then [] else [x], Some(KillOne(cfg, x, svc).error))
  {
    assert ([x] + rest)[0] == x;
  }

  /** `killMany`: an empty list is rejected; otherwise every process is killed in turn. */
  function KillMany(cfg: Config, ids: seq<string>, svc: Service): (r: Report<string>)
    ensures |ids| == 0 ==> r == Report([], Some(NoInstanceIds))
    ensures |ids| > 0 ==> r == KillEach(cfg, ids, svc)
  {
    if |ids| == 0 then Report([], Some(NoInstanceIds)) else KillEach(cfg, ids, svc)
  }

  /** `kill(ctx, cfg)`: reads the targets, then kills them. */
  function Kill(cfg: Config, svc: Service): (r: Report<string>)
    ensures KillTargets(cfg).Err? ==> r == Report([], Some(KillTargets(cfg).error))
    ensures KillTargets(cfg).Ok? ==> r == KillMany(cfg, KillTargets(cfg).value, svc)
  {
    match KillTargets(cfg)
    case Err(f) => Report([], Some(f))
    case Ok(ids) => KillMany(cfg, ids, svc)
  }

  /**
   * A synchronous kill of two processes where the second never stops within
   * the kill timeout: both kill requests are sent, and the wait's timeout is
   * raised by the kill action itself.
   */
  lemma KillWaitTimeoutIsRaised(a: string, b: string, svc: Service, dt: int)
    requires a != b
    requires a !in svc.refusedKills && b !in svc.refusedKills
    requires TraceOf(svc, a) == [Observed(ProcessEntry(Finished, None), 2000)]
    requires TraceOf(svc, b) == [Observed(ProcessEntry(Running, None), dt)] && dt >= DefaultKillTimeout
    ensures Kill(map[InstanceIdKey := VList([VStr(a), VUuid(b)]), SyncKey := VBool(true)], svc)
            == Report([a, b], Some(WaitTimeout(b, dt)))
  {
    var cfg := map[InstanceIdKey := VList([VStr(a), VUuid(b)]), SyncKey := VBool(true)];
    var ids := IdsOf([VStr(a), VUuid(b)]);
    assert ids.Ok?;
    assert ids.value[0] == a && ids.value[1] == b;
    assert ids.value == [a, b];
    assert KillTargets(cfg) == Ok([a, b]);
    assert GetBool(cfg, SyncKey, false) == Ok(true);
    assert Waiter.AwaitOne(a, TraceOf(svc, a), DefaultKillTimeout).Ok?;
    assert Waiter.WaitFor([a], svc, DefaultKillTimeout).Ok?;
    assert Waiter.AwaitOne(b, TraceOf(svc, b), DefaultKillTimeout) == Err(WaitTimeout(b, dt));
    assert Waiter.WaitFor([b], svc, DefaultKillTimeout) == Err(WaitTimeout(b, dt));
    assert KillOne(cfg, a, svc) == Ok(());
    assert KillOne(cfg, b, svc) == Err(WaitTimeout(b, dt));
    assert [a, b][1..] == [b];
    assert KillEach(cfg, [b], svc) == Report([b], Some(WaitTimeout(b, dt)));
  }
}
