/**
 * `waitForCompletion`: polls every process until it reports FAILED,
 * FINISHED or CANCELLED, failing the whole wait when one of them is still
 * running once the timeout has elapsed. The processes are polled one after
 * another, in list order.
 */
module Waiter {
  import opened Wrappers
  import opened Values
  import opened Remote

  /** The statuses that end the polling of a process. TIMED_OUT is not among them. */
  predicate StopsPolling(s: Status) {
    s == Failed || s == Finished || s == Cancelled
  }

  /** The loop tests the timeout only when it is positive. */
  predicate Expired(elapsed: int, timeout: int) {
    timeout > 0 && elapsed >= timeout
  }

  /** The first `k` polls neither failed, nor stopped the loop, nor hit the timeout. */
  ghost predicate Quiet(trace: seq<Poll>, k: nat, timeout: int)
    requires k <= |trace|
  {
    forall j :: 0 <= j < k ==>
      trace[j].Observed? && !StopsPolling(trace[j].entry.status) && !Expired(trace[j].elapsed, timeout)
  }

  /** The polling loop for one process `id`, driven by the answers `trace`. */
  function AwaitOne(id: string, trace: seq<Poll>, timeout: int): (r: Result<ProcessEntry, Failure>)
    ensures r.Ok? ==> StopsPolling(r.value.status)
    ensures r.Ok? ==> exists j :: 0 <= j < |trace| && trace[j].Observed? && trace[j].entry == r.value
    ensures r.Err? ==> r.error == RemoteCallFailed || r.error == StillWaiting(id)
                       || (r.error.WaitTimeout? && r.error.id == id)
    ensures r.Err? && r.error.WaitTimeout? ==>
              && Expired(r.error.elapsed, timeout)
              && exists j :: 0 <= j < |trace| && trace[j].Observed? && trace[j].elapsed == r.error.elapsed
                             && !StopsPolling(trace[j].entry.status)
    decreases |trace|
  {
    if |trace| == 0 then Err(StillWaiting(id))
    else match trace[0]
      case CallFailed => Err(RemoteCallFailed)
      case Observed(e, dt) =>
        if StopsPolling(e.status) then Ok(e)
        else if Expired(dt, timeout) then Err(WaitTimeout(id, dt))
        else
          var r := AwaitOne(id, trace[1..], timeout);
          assert forall j :: 0 <= j < |trace| - 1 ==> trace[1..][j] == trace[j + 1];
          r
  }

  /**
   * The whole wait: a map from every id to the entry that stopped its
   * polling, or the first failure met.
   */
  function WaitFor(ids: seq<string>, svc: Service, timeout: int): (r: Result<map<string, ProcessEntry>, Failure>)
    ensures r.Ok? ==> forall id :: id in r.value <==> id in ids
    ensures r.Ok? ==> forall id :: id in r.value ==> AwaitOne(id, TraceOf(svc, id), timeout) == Ok(r.value[id])
    ensures r.Ok? ==> forall id :: id in r.value ==> StopsPolling(r.value[id].status)
    ensures r.Err? ==> exists i :: 0 <= i < |ids| && AwaitOne(ids[i], TraceOf(svc, ids[i]), timeout) == Err(r.error)
    ensures r.Err? && r.error.WaitTimeout? ==> r.error.id in ids && Expired(r.error.elapsed, timeout)
    ensures timeout <= 0 ==> !(r.Err? && r.error.WaitTimeout?)
    decreases |ids|
  {
    if |ids| == 0 then Ok(map[])
    else
      var e :- AwaitOne(ids[0], TraceOf(svc, ids[0]), timeout);
      var rest :- WaitFor(ids[1..], svc, timeout);
      assert forall i :: 0 <= i < |ids| - 1 ==> ids[1..][i] == ids[i + 1];
      assert forall id :: id in ids ==> id == ids[0] || id in ids[1..];
      Ok(rest[ids[0] := e])
  }

  /** The loop returns at the first poll that reports a stopping status. */
  lemma {:induction false} AwaitOneStops(id: string, trace: seq<Poll>, timeout: int, k: nat)
    requires k < |trace| && Quiet(trace, k, timeout)
    requires trace[k].Observed? && StopsPolling(trace[k].entry.status)
    ensures AwaitOne(id, trace, timeout) == Ok(trace[k].entry)
    decreases k
  {
    if k > 0 {
      AwaitOneStops(id, trace[1..], timeout, k - 1);
    }
  }

  /** The loop times out at the first poll that still runs past a positive timeout. */
  lemma {:induction false} AwaitOneTimesOut(id: string, trace: seq<Poll>, timeout: int, k: nat)
    requires k < |trace| && Quiet(trace, k, timeout)
    requires trace[k].Observed? && !StopsPolling(trace[k].entry.status)
    requires Expired(trace[k].elapsed, timeout)
    ensures AwaitOne(id, trace, timeout) == Err(WaitTimeout(id, trace[k].elapsed))
    decreases k
  {
    if k > 0 {
      AwaitOneTimesOut(id, trace[1..], timeout, k - 1);
    }
  }

  /**
   * A process the service reports as TIMED_OUT never leaves the polling
   * loop normally: the wait ends only through the local timeout, a failed
   * query, or not at all.
   */
  lemma {:induction false} TimedOutOnlyLeavesByTimeout(id: string, trace: seq<Poll>, timeout: int)
    requires forall j :: 0 <= j < |trace| && trace[j].Observed? ==> trace[j].entry.status == TimedOut
    ensures AwaitOne(id, trace, timeout).Err?
    ensures timeout <= 0 ==> AwaitOne(id, trace, timeout).error in {RemoteCallFailed, StillWaiting(id)}
    decreases |trace|
  {
    if |trace| > 0 && trace[0].Observed? && !Expired(trace[0].elapsed, timeout) {
      TimedOutOnlyLeavesByTimeout(id, trace[1..], timeout);
    }
  }

  /**
   * When every process reports FINISHED before any poll fails or times out,
   * the wait returns every process as FINISHED.
   */
  lemma AllFinished(ids: seq<string>, svc: Service, timeout: int, stop: map<string, nat>)
    requires forall id :: id in ids ==> id in stop
    requires forall id :: id in ids ==>
      var t := TraceOf(svc, id);
      stop[id] < |t| && Quiet(t, stop[id], timeout) && t[stop[id]].Observed? && t[stop[id]].entry.status == Finished
    ensures WaitFor(ids, svc, timeout).Ok?
    ensures forall id :: id in WaitFor(ids, svc, timeout).value ==> WaitFor(ids, svc, timeout).value[id].status == Finished
  {
    forall id | id in ids
      ensures AwaitOne(id, TraceOf(svc, id), timeout) == Ok(TraceOf(svc, id)[stop[id]].entry)
    {
      AwaitOneStops(id, TraceOf(svc, id), timeout, stop[id]);
    }
    WaitForAllOk(ids, svc, timeout);
  }

  /** The wait succeeds when every process's own loop does. */
  lemma {:induction false} WaitForAllOk(ids: seq<string>, svc: Service, timeout: int)
    requires forall id :: id in ids ==> AwaitOne(id, TraceOf(svc, id), timeout).Ok?
    ensures WaitFor(ids, svc, timeout).Ok?
    decreases |ids|
  {
    if |ids| > 0 {
      assert forall id :: id in ids[1..] ==> id in ids;
      WaitForAllOk(ids[1..], svc, timeout);
    }
  }
}
