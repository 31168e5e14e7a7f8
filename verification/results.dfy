/**
 * `handleResults` and `getError`: deciding from the entries a wait returned
 * whether the children failed, and building the one error that reports them.
 */
module Results {
  import opened Wrappers
  import opened Values
  import opened Remote
  import TaskConfig
  import Waiter
  import opened Seqs

  /** Key of the process metadata holding the process's output variables. */
  const OutKey := "out"
  /** Key of the output variables holding the last error (`Constants.Context.LAST_ERROR_KEY`). */
  const LastErrorKey := "lastError"

  /** The statuses counted as a failed child: FAILED, CANCELLED and TIMED_OUT. */
  predicate FailedStatus(s: Status) {
    s == Failed || s == Cancelled || s == TimedOut
  }

  /** `FAILED_STATUSES`: the names of the statuses counted as a failed child. */
  const FailedStatusNames: set<string> := {"FAILED", "CANCELLED", "TIMED_OUT"}

  /** `FAILED_STATUSES.contains(status.getValue())` asks exactly whether a status is a failed one. */
  lemma FailedStatusByName(s: Status)
    ensures FailedStatus(s) <==> StatusName(s) in FailedStatusNames
  {
  }

  /**
   * How the failed statuses relate to those that end the polling: FAILED and
   * CANCELLED are both; FINISHED only ends the polling; TIMED_OUT is counted
   * as a failure but never ends it.
   */
  lemma FailedVersusStopped(s: Status)
    ensures FailedStatus(s) && Waiter.StopsPolling(s) <==> s == Failed || s == Cancelled
    ensures Waiter.StopsPolling(s) && !FailedStatus(s) <==> s == Finished
    ensures FailedStatus(s) && !Waiter.StopsPolling(s) <==> s == TimedOut
  {
  }

  /**
   * `getError`: the last error recorded in a process's output variables, an
   * empty map when the metadata, the output or the entry is missing. An
   * entry of the wrong shape fails its cast; an entry explicitly bound to null
   * is returned as null and fails where the caller asks whether it is empty.
   */
  function GetError(p: ProcessEntry): (r: Result<Config, Failure>)
    ensures p.meta.None? ==> r == Ok(map[])
    ensures p.meta.Some? && Get(p.meta.value, OutKey).None? ==> r == Ok(map[])
    ensures forall out :: p.meta.Some? && Get(p.meta.value, OutKey) == Some(VMap(out)) ==>
              && (LastErrorKey !in out ==> r == Ok(map[]))
              && (forall e :: LastErrorKey in out && out[LastErrorKey] == VMap(e) ==> r == Ok(e))
    ensures r.Err? ==> r.error in {NotMap(OutKey), NotMap(LastErrorKey), NullDetail}
  {
    match p.meta
    case None => Ok(map[])
    case Some(meta) =>
      match Get(meta, OutKey)
      case None => Ok(map[])
      case Some(VMap(out)) =>
        if LastErrorKey !in out then Ok(map[])
        else (
          match out[LastErrorKey]
          case VMap(e) => Ok(e)
          case VNull => Err(NullDetail)
          case _ => Err(NotMap(LastErrorKey)))
      case Some(_) => Err(NotMap(OutKey))
  }

  /** The error suffix of a report line: empty when there is no error detail. */
  function Suffix(err: Config, show: Config -> string): (r: string)
    ensures |err| == 0 <==> r == ""
  {
    if |err| == 0 then "" else "(error: " + show(err) + ")"
  }

  /** The start of the report line of a failed child: its id and its status. */
  function Head(id: string, s: Status): string {
    "Child process " + id + " " + StatusName(s) + " "
  }

  /** The report line of one failed child. */
  function Line(id: string, s: Status, suffix: string): (r: string)
    ensures Head(id, s) <= r && r[|r| - 1] == '\n'
  {
    Head(id, s) + suffix + "\n"
  }

  /** No id occurs twice. */
  predicate Distinct(ids: seq<string>) {
    forall i, j :: 0 <= i < j < |ids| ==> ids[i] != ids[j]
  }

  /** The ids in `order` whose entries have a failed status, in that order. */
  function FailingIds(order: seq<string>, m: map<string, ProcessEntry>): (r: seq<string>)
    requires forall i :: 0 <= i < |order| ==> order[i] in m
    ensures |r| <= |order|
    ensures forall id :: id in r <==> id in order && FailedStatus(m[id].status)
    ensures forall i :: 0 <= i < |r| ==> r[i] in m && FailedStatus(m[r[i]].status)
    ensures Distinct(order) ==> Distinct(r)
  {
    if |order| == 0 then []
    else
      var rest := FailingIds(order[1..], m);
      assert forall id :: id in order <==> id == order[0] || id in order[1..];
      if FailedStatus(m[order[0]].status) then [order[0]] + rest else rest
  }

  /** Selecting the failed ids keeps their order: the selection of a concatenation is the concatenation of the selections. */
  lemma {:induction false} FailingIdsConcat(a: seq<string>, b: seq<string>, m: map<string, ProcessEntry>)
    requires forall i :: 0 <= i < |a| ==> a[i] in m
    requires forall i :: 0 <= i < |b| ==> b[i] in m
    ensures forall i :: 0 <= i < |a + b| ==> (a + b)[i] in m
    ensures FailingIds(a + b, m) == FailingIds(a, m) + FailingIds(b, m)
    decreases |a|
  {
    if |a| == 0 {
      assert a + b == b;
    } else {
      var x, t := a[0], a[1..];
      SplitHead(a, b);
      FailingIdsConcat(t, b, m);
      FailingIdsCons(x, t, m);
      FailingIdsCons(x, t + b, m);
      var mine := if FailedStatus(m[x].status) then [x] else [];
      ConcatAssoc(mine, FailingIds(t, m), FailingIds(b, m));
    }
  }

  /** The failed ids of a list: its head when that failed, then those of the rest. */
  lemma FailingIdsCons(x: string, rest: seq<string>, m: map<string, ProcessEntry>)
    requires x in m && forall i :: 0 <= i < |rest| ==> rest[i] in m
    ensures forall i :: 0 <= i < |[x] + rest| ==> ([x] + rest)[i] in m
    ensures FailingIds([x] + rest, m) == (if FailedStatus(m[x].status) then [x] else []) + FailingIds(rest, m)
  {
    assert ([x] + rest)[0] == x && ([x] + rest)[1..] == rest;
  }

  /**
   * The report lines `handleResults` appends, visiting the entries in
   * `order`; with `ignore` set, failures are only logged. The error details
   * are read for every failed entry, ignored or not.
   */
  function ErrorLines(order: seq<string>, m: map<string, ProcessEntry>, ignore: bool, show: Config -> string)
    : (r: Result<seq<string>, Failure>)
    requires forall i :: 0 <= i < |order| ==> order[i] in m
    ensures r.Ok? && ignore ==> r.value == []
    ensures r.Ok? && !ignore ==> |r.value| == |FailingIds(order, m)|
    ensures r.Err? ==> r.error in {NotMap(OutKey), NotMap(LastErrorKey), NullDetail}
  {
    if |order| == 0 then Ok([])
    else
      var id := order[0];
      var e := m[id];
      assert forall i :: 0 <= i < |order| - 1 ==> order[1..][i] == order[i + 1];
      if FailedStatus(e.status) then
        var err :- GetError(e);
        var rest :- ErrorLines(order[1..], m, ignore, show);
        if ignore then Ok(rest) else Ok([Line(id, e.status, Suffix(err, show))] + rest)
      else
        ErrorLines(order[1..], m, ignore, show)
  }

  /**
   * `line` is the report line of child `id`: its id, its status, the suffix
   * rendered from its error detail, and the end of the line.
   */
  predicate LineReports(line: string, id: string, m: map<string, ProcessEntry>, show: Config -> string) {
    && id in m
    && GetError(m[id]).Ok?
    && line == Line(id, m[id].status, Suffix(GetError(m[id]).value, show))
  }

  /** A child without error detail is reported by its id and status alone. */
  lemma LineWithoutDetail(line: string, id: string, m: map<string, ProcessEntry>, show: Config -> string)
    requires id in m && GetError(m[id]) == Ok(map[])
    ensures LineReports(line, id, m, show) <==> line == Head(id, m[id].status) + "\n"
  {
    assert Suffix(map[], show) == "";
  }

  /** Line `i` of `lines` reports child `ids[i]`. */
  predicate Reports(lines: seq<string>, ids: seq<string>, m: map<string, ProcessEntry>, show: Config -> string) {
    && |lines| == |ids|
    && forall i :: 0 <= i < |lines| ==> LineReports(lines[i], ids[i], m, show)
  }

  lemma ReportsCons(l: string, lines: seq<string>, id: string, ids: seq<string>, m: map<string, ProcessEntry>,
                    show: Config -> string)
    requires Reports(lines, ids, m, show) && LineReports(l, id, m, show)
    ensures Reports([l] + lines, [id] + ids, m, show)
  {
    forall i | 0 < i < |[l] + lines|
      ensures ([l] + lines)[i] == lines[i - 1] && ([id] + ids)[i] == ids[i - 1]
    {
    }
  }

  /** Report line `i` names the `i`-th failed child and its status, and ends the line. */
  lemma {:induction false} ErrorLinesNameFailures(order: seq<string>, m: map<string, ProcessEntry>, show: Config -> string)
    requires forall i :: 0 <= i < |order| ==> order[i] in m
    requires ErrorLines(order, m, false, show).Ok?
    ensures Reports(ErrorLines(order, m, false, show).value, FailingIds(order, m), m, show)
  {
    if |order| > 0 {
      assert forall i :: 0 <= i < |order| - 1 ==> order[1..][i] == order[i + 1];
      var rest := ErrorLines(order[1..], m, false, show).value;
      var ids' := FailingIds(order[1..], m);
      ErrorLinesNameFailures(order[1..], m, show);
      var e := m[order[0]];
      if FailedStatus(e.status) {
        var l := Line(order[0], e.status, Suffix(GetError(e).value, show));
        assert ErrorLines(order, m, false, show).value == [l] + rest;
        assert FailingIds(order, m) == [order[0]] + ids';
        ReportsCons(l, rest, order[0], ids', m, show);
      }
    }
  }

  /** Reading the report fails exactly when some failed child's error detail cannot be read. */
  lemma {:induction false} ErrorLinesFailIff(order: seq<string>, m: map<string, ProcessEntry>, ignore: bool, show: Config -> string)
    requires forall i :: 0 <= i < |order| ==> order[i] in m
    ensures ErrorLines(order, m, ignore, show).Err? <==>
              exists i :: 0 <= i < |order| && FailedStatus(m[order[i]].status) && GetError(m[order[i]]).Err?
  {
    if |order| > 0 {
      assert forall i :: 0 <= i < |order| - 1 ==> order[1..][i] == order[i + 1];
      ErrorLinesFailIff(order[1..], m, ignore, show);
      if ErrorLines(order, m, ignore, show).Err? && !GetError(m[order[0]]).Err? {
        var i :| 0 <= i < |order| - 1 && FailedStatus(m[order[1..][i]].status) && GetError(m[order[1..][i]]).Err?;
        assert order[i + 1] == order[1..][i];
      }
    }
  }

  /** The report lines joined into one message. */
  function Concat(lines: seq<string>): string {
    if |lines| == 0 then "" else lines[0] + Concat(lines[1..])
  }

  /** `order` lists every key of `m` exactly once: how a Java map's entry set is visited. */
  predicate Enumerates(order: seq<string>, m: map<string, ProcessEntry>) {
    && (forall i :: 0 <= i < |order| ==> order[i] in m)
    && (forall id :: id in m ==> id in order)
    && (forall i, j :: 0 <= i < j < |order| ==> order[i] != order[j])
  }

  /** The error details of every failed entry can be read. */
  predicate DetailsReadable(m: map<string, ProcessEntry>) {
    forall id :: id in m && FailedStatus(m[id].status) ==> GetError(m[id]).Ok?
  }

  /**
   * `handleResults`: raises one error listing every failed child, unless
   * failures are ignored; `show` renders an error detail map as text.
   */
  function HandleResults(cfg: Config, m: map<string, ProcessEntry>, order: seq<string>, show: Config -> string)
    : (r: Result<(), Failure>)
    requires Enumerates(order, m)
    ensures GetBool(cfg, TaskConfig.IgnoreFailuresKey, false).Ok? && DetailsReadable(m) ==>
              (r.Err? <==> !GetBool(cfg, TaskConfig.IgnoreFailuresKey, false).value
                           && exists id :: id in m && FailedStatus(m[id].status))
    ensures r.Err? && r.error.ChildrenFailed? ==>
              && GetBool(cfg, TaskConfig.IgnoreFailuresKey, false) == Ok(false)
              && ErrorLines(order, m, false, show).Ok?
              && r.error.message == Concat(ErrorLines(order, m, false, show).value)
    ensures GetBool(cfg, TaskConfig.IgnoreFailuresKey, false).Ok? && (forall id :: id in m ==> !FailedStatus(m[id].status))
            ==> r == Ok(())
    ensures r.Err? ==> r.error.ChildrenFailed? || r.error in {WrongType(TaskConfig.IgnoreFailuresKey), NotMap(OutKey), NotMap(LastErrorKey), NullDetail}
  {
    ErrorLinesFailIff(order, m, false, show);
    ErrorLinesFailIff(order, m, true, show);
    var ignore :- GetBool(cfg, TaskConfig.IgnoreFailuresKey, false);
    var lines :- ErrorLines(order, m, ignore, show);
    assert forall id :: id in m && FailedStatus(m[id].status) ==> id in FailingIds(order, m);
    assert |FailingIds(order, m)| > 0 ==> FailingIds(order, m)[0] in FailingIds(order, m);
    if |lines| == 0 then Ok(()) else Err(ChildrenFailed(Concat(lines)))
  }

  /**
   * With failures not ignored and every error detail readable, the report
   * has one line per failed child, no child twice, each line exactly that
   * child's id, status and detail suffix; `handleResults` raises it exactly
   * when some child failed.
   */
  lemma HandleResultsReportsEach(cfg: Config, m: map<string, ProcessEntry>, order: seq<string>, show: Config -> string)
    requires Enumerates(order, m)
    requires GetBool(cfg, TaskConfig.IgnoreFailuresKey, false) == Ok(false) && DetailsReadable(m)
    ensures ErrorLines(order, m, false, show).Ok?
    ensures Reports(ErrorLines(order, m, false, show).value, FailingIds(order, m), m, show)
    ensures Distinct(FailingIds(order, m))
    ensures forall id :: id in FailingIds(order, m) <==> id in m && FailedStatus(m[id].status)
    ensures HandleResults(cfg, m, order, show)
            == if |FailingIds(order, m)| == 0 then Ok(())
               else Err(ChildrenFailed(Concat(ErrorLines(order, m, false, show).value)))
  {
    ErrorLinesFailIff(order, m, false, show);
    ErrorLinesNameFailures(order, m, show);
  }

  /** Entries that did not fail never contribute to the report, whatever their place. */
  lemma {:induction false} OnlyFailuresReported(order: seq<string>, m: map<string, ProcessEntry>, ignore: bool, show: Config -> string)
    requires forall i :: 0 <= i < |order| ==> order[i] in m
    ensures ErrorLines(order, m, ignore, show) == ErrorLines(FailingIds(order, m), m, ignore, show)
  {
    if |order| > 0 {
      assert forall i :: 0 <= i < |order| - 1 ==> order[1..][i] == order[i + 1];
      OnlyFailuresReported(order[1..], m, ignore, show);
      var rest := FailingIds(order[1..], m);
      if FailedStatus(m[order[0]].status) {
        assert ([order[0]] + rest)[1..] == rest;
      }
    }
  }

  /** A failed child without error detail is reported with an empty suffix. */
  lemma FailedWithoutDetail(id: string, s: Status, show: Config -> string)
    requires FailedStatus(s)
    ensures HandleResults(map[], map[id := ProcessEntry(s, None)], [id], show)
            == Err(ChildrenFailed("Child process " + id + " " + StatusName(s) + " \n"))
  {
    var m := map[id := ProcessEntry(s, None)];
    assert GetBool(map[], TaskConfig.IgnoreFailuresKey, false) == Ok(false);
    assert GetError(m[id]) == Ok(map[]);
    assert Suffix(map[], show) == "";
    assert [id][1..] == [];
    assert ErrorLines([], m, false, show) == Ok([]);
    assert ErrorLines([id], m, false, show) == Ok([Line(id, s, "")] + []);
    assert [Line(id, s, "")] + [] == [Line(id, s, "")];
    assert Concat([Line(id, s, "")]) == Line(id, s, "");
    assert Line(id, s, "") == "Child process " + id + " " + StatusName(s) + " \n";
  }

  /** With failures ignored a FAILED and a FINISHED child complete without an error. */
  lemma IgnoredFailure(a: string, b: string, show: Config -> string)
    requires a != b
    ensures HandleResults(map[TaskConfig.IgnoreFailuresKey := VBool(true)],
                          map[a := ProcessEntry(Failed, None), b := ProcessEntry(Finished, None)], [a, b], show)
            == Ok(())
  {
  }
}
