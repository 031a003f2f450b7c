/**
 * The `Workflow` class of `scheduler/dag.py`: a DAG with a fail-fast
 * switch, an alert switch and an execution history.  `execute` runs the
 * DAG's selection with the workflow's own fail-fast policy, appends one
 * history record per call whether the run succeeds or raises, and, on an
 * alerted failure, asks for an alert naming the tasks that were planned
 * but did not run.
 *
 * Start and end times and durations are clock readings and are not part
 * of the record here; the alert is the request handed to the alert
 * manager, not the message it sends.
 */
module Engine {
  import opened Outcomes
  import opened Graph
  import opened Calendar
  import opened Params
  import opened Tasks
  import opened Dag
  import opened Run

  // ---------------------------------------------------------------------
  // Python's ordering of strings, and `sorted`

  /** `a < b` on Python strings: code point by code point, a proper prefix first. */
  predicate Below(a: string, b: string)
    decreases |a|
  {
    |b| > 0 && (|a| == 0 || a[0] < b[0] || (a[0] == b[0] && Below(a[1..], b[1..])))
  }

  lemma {:induction false} BelowIrreflexive(a: string)
    ensures !Below(a, a)
    decreases |a|
  {
    if |a| > 0 {
      BelowIrreflexive(a[1..]);
    }
  }

  lemma {:induction false} BelowTransitive(a: string, b: string, c: string)
    requires Below(a, b) && Below(b, c)
    ensures Below(a, c)
    decreases |a|
  {
    if |a| > 0 && a[0] == b[0] && b[0] == c[0] {
      BelowTransitive(a[1..], b[1..], c[1..]);
    }
  }

  lemma {:induction false} BelowTotal(a: string, b: string)
    requires a != b
    ensures Below(a, b) || Below(b, a)
    decreases |a|
  {
    if |a| > 0 && |b| > 0 && a[0] == b[0] {
      assert a == [a[0]] + a[1..] && b == [b[0]] + b[1..];
      BelowTotal(a[1..], b[1..]);
    }
  }

  /** Every element comes strictly before the ones after it. */
  predicate Ascending(xs: seq<string>)
  {
    forall i, j :: 0 <= i < j < |xs| ==> Below(xs[i], xs[j])
  }

  /** `m` comes before every other element of `s`. */
  predicate IsLeast(s: set<string>, m: string)
  {
    m in s && forall y :: y in s && y != m ==> Below(m, y)
  }

  lemma {:induction false} LeastExists(s: set<string>)
    requires s != {}
    ensures exists m :: IsLeast(s, m)
    decreases |s|
  {
    var y := Pick(s);
    if s - {y} == {} {
      assert s == {y};
      assert IsLeast(s, y);
    } else {
      LeastExists(s - {y});
      var m :| IsLeast(s - {y}, m);
      if Below(m, y) {
        assert IsLeast(s, m);
      } else {
        BelowTotal(m, y);
        forall z | z in s && z != y ensures Below(y, z) {
          if z != m { BelowTransitive(y, m, z); }
        }
        assert IsLeast(s, y);
      }
    }
  }

  lemma LeastUnique(s: set<string>)
    ensures forall a, b :: IsLeast(s, a) && IsLeast(s, b) ==> a == b
  {
    forall a, b | IsLeast(s, a) && IsLeast(s, b) ensures a == b {
      if a != b {
        BelowTransitive(a, b, a);
        BelowIrreflexive(a);
      }
    }
  }

  /** `sorted(list(s))`: the elements of a set, least first. */
  function SortedSet(s: set<string>): (r: seq<string>)
    decreases |s|
  {
    if s == {} then []
    else
      LeastExists(s);
      LeastUnique(s);
      var m :| IsLeast(s, m);
      [m] + SortedSet(s - {m})
  }

  /** The sorted list holds exactly the set's elements, in ascending order. */
  lemma {:induction false} SortedSetFacts(s: set<string>)
    ensures Ascending(SortedSet(s)) && SetOf(SortedSet(s)) == s
    decreases |s|
  {
    if s != {} {
      LeastExists(s);
      LeastUnique(s);
      var m :| IsLeast(s, m);
      var rest := SortedSet(s - {m});
      assert SortedSet(s) == [m] + rest;
      SortedSetFacts(s - {m});
      var r := [m] + rest;
      forall i, j | 0 <= i < j < |r| ensures Below(r[i], r[j]) {
        if i == 0 {
          assert r[j] == rest[j - 1] && rest[j - 1] in SetOf(rest);
        } else {
          assert r[i] == rest[i - 1] && r[j] == rest[j - 1];
        }
      }
      forall x ensures x in SetOf(r) <==> x in s {
        assert x in r <==> x == m || x in rest;
      }
    }
  }

  /** Two ascending lists with the same elements are the same list. */
  lemma {:induction false} AscendingUnique(a: seq<string>, b: seq<string>)
    requires Ascending(a) && Ascending(b) && SetOf(a) == SetOf(b)
    ensures a == b
    decreases |a|
  {
    if |a| > 0 && |b| > 0 {
      assert a[0] in SetOf(b) && b[0] in SetOf(a);
      var i :| 0 <= i < |b| && b[i] == a[0];
      var j :| 0 <= j < |a| && a[j] == b[0];
      if i > 0 && j > 0 {
        BelowTransitive(a[0], a[j], b[i]);
        BelowIrreflexive(a[0]);
      } else if i > 0 {
        BelowIrreflexive(a[0]);
      } else if j > 0 {
        BelowIrreflexive(b[0]);
      }
      assert a[0] == b[0];
      forall x ensures x in SetOf(a[1..]) <==> x in SetOf(b[1..]) {
        if x in a[1..] {
          var k :| 0 <= k < |a[1..]| && a[1..][k] == x;
          assert Below(a[0], a[k + 1]);
          if x == b[0] { BelowIrreflexive(x); }
          assert x in b;
        }
        if x in b[1..] {
          var k :| 0 <= k < |b[1..]| && b[1..][k] == x;
          assert Below(b[0], b[k + 1]);
          if x == a[0] { BelowIrreflexive(x); }
          assert x in a;
        }
      }
      AscendingUnique(a[1..], b[1..]);
      assert a == [a[0]] + a[1..] && b == [b[0]] + b[1..];
    } else if |a| > 0 {
      HeadListed(a);
      assert false;
    } else if |b| > 0 {
      HeadListed(b);
      assert false;
    }
  }

  lemma HeadListed(a: seq<string>)
    requires |a| > 0
    ensures a[0] in SetOf(a)
  {
  }

  /** Whatever order the set was listed in, `sorted` gives the same list. */
  lemma SortedSetUnique(xs: seq<string>, s: set<string>)
    requires Ascending(xs) && SetOf(xs) == s
    ensures xs == SortedSet(s)
  {
    SortedSetFacts(s);
    AscendingUnique(xs, SortedSet(s));
  }

  // ---------------------------------------------------------------------
  // The messages of the exceptions

  /** `str(e)` of the `ValueError`s of `scheduler/dag.py`. */
  function DagErrorText(e: DagError): (r: string)
  {
    match e
    case UnknownUpstream(id) => "上游任务 " + id + " 不存在"
    case UnknownDownstream(id) => "下游任务 " + id + " 不存在"
    case Cycle => "DAG中存在环路，无法执行拓扑排序"
    case UnknownTask(id) => "任务 " + id + " 不存在"
    case UnknownStart(id) => "开始任务 " + id + " 不存在"
    case UnknownEnd(id) => "结束任务 " + id + " 不存在"
  }

  /** A message of the shape `prefix + id + suffix` gives back its id. */
  lemma Framed(prefix: string, a: string, b: string, suffix: string)
    requires prefix + a + suffix == prefix + b + suffix
    ensures a == b
  {
    var m := prefix + a + suffix;
    assert a == m[|prefix|..|m| - |suffix|];
    assert b == m[|prefix|..|m| - |suffix|];
  }

  /** The message of a `ValueError` tells which error it was, and for which task. */
  lemma DagErrorTextInjective(a: DagError, b: DagError)
    requires DagErrorText(a) == DagErrorText(b)
    ensures a == b
  {
    var m := DagErrorText(a);
    assert m[0] == DagErrorText(b)[0];
    match a
    case UnknownUpstream(x) => Framed("上游任务 ", x, b.id, " 不存在");
    case UnknownDownstream(x) => Framed("下游任务 ", x, b.id, " 不存在");
    case Cycle =>
    case UnknownTask(x) => Framed("任务 ", x, b.id, " 不存在");
    case UnknownStart(x) => Framed("开始任务 ", x, b.id, " 不存在");
    case UnknownEnd(x) => Framed("结束任务 ", x, b.id, " 不存在");
  }

  /** The message of the interpreter's recursion error. */
  const RecursionText := "maximum recursion depth exceeded"

  /** `str(e)` of the exception that stopped a run. */
  function HaltText(h: Halt): (r: string)
    ensures h.TaskRaised? ==> r == h.message
  {
    match h
    case Unresolvable(_) => RecursionText
    case TaskRaised(_, m) => m
  }

  /**
   * `error_message` once `execute` is done with it: when the run stopped
   * and no failure left a non-empty message, it becomes the message of
   * the exception that stopped it.
   */
  function FinalMessage(s: RunState): (r: Option<string>)
    ensures s.halt.None? ==> r == s.errorMessage
    ensures s.halt.Some? ==> r.Some?
  {
    if s.halt.Some? && !Run.Given(s.errorMessage) then Some(HaltText(s.halt.value)) else s.errorMessage
  }

  // ---------------------------------------------------------------------
  // The execution record and the alert

  /** The `status` of a record. */
  datatype Status = SuccessStatus | FailedStatus

  /** An entry of `execution_history`, without its clock readings. */
  datatype ExecutionRecord = ExecutionRecord(
    status: Status, params: Store, startFrom: Option<string>, endAt: Option<string>,
    only: Option<seq<string>>, completed: seq<string>, failedTask: Option<string>,
    errorMessage: Option<string>)

  /**
   * The record `execute` appends in its `finally` block, from the outcome
   * of the shared part: a sorting or selection error leaves nothing
   * completed and its message as the error; otherwise the run's state.
   */
  function Record(d: Result<RunState, DagError>, params: Store, startFrom: Option<string>,
                  endAt: Option<string>, only: Option<seq<string>>): (r: ExecutionRecord)
    ensures r.params == params && r.startFrom == startFrom && r.endAt == endAt && r.only == only
    ensures r.status == SuccessStatus <==> DagOutcome(d).Success?
  {
    match d
    case Failure(e) =>
      ExecutionRecord(FailedStatus, params, startFrom, endAt, only, [], None, Some(DagErrorText(e)))
    case Success(s) =>
      ExecutionRecord(if s.halt.None? then SuccessStatus else FailedStatus, params, startFrom, endAt, only,
                      s.completed, s.failedTask, FinalMessage(s))
  }

  /** What `send_workflow_failed_alert` is given. */
  datatype AlertRequest = AlertRequest(workflow: string, failedTask: string, reason: string,
                                       completed: seq<string>, uncompleted: seq<string>)

  /**
   * The alert of a failed `execute`: only when alerts are on and a task
   * failed, naming the planned tasks that neither completed nor failed,
   * sorted.
   */
  function Alert(name: string, d: Result<RunState, DagError>, planned: set<string>, send: bool): (r: Option<AlertRequest>)
    ensures r.Some? <==> send && DagOutcome(d).Failure? && d.Success? && Run.Given(d.value.failedTask)
    ensures r.Some? ==>
      r.value.workflow == name && r.value.failedTask == d.value.failedTask.value &&
      r.value.completed == d.value.completed && Some(r.value.reason) == FinalMessage(d.value)
    ensures r.Some? ==>
      Ascending(r.value.uncompleted) &&
      SetOf(r.value.uncompleted) == planned - SetOf(d.value.completed) - {d.value.failedTask.value}
  {
    if send && d.Success? && d.value.halt.Some? && Run.Given(d.value.failedTask) then
      var s := d.value;
      var left := planned - (SetOf(s.completed) + {s.failedTask.value});
      SortedSetFacts(left);
      Some(AlertRequest(name, s.failedTask.value, FinalMessage(s).value, s.completed, SortedSet(left)))
    else None
  }

  // ---------------------------------------------------------------------
  // What the record and the alert say about a run

  /**
   * With fail-fast on: a SUCCESS record lists the whole schedule as
   * completed and no failure; a FAILED one lists the tasks before the one
   * that stopped the run, names it as the failed task when it raised, and
   * carries the message of the exception that stopped it.
   */
  lemma FailFastRecord(env: Env, sched: seq<string>, params: Store, startFrom: Option<string>,
                       endAt: Option<string>, only: Option<seq<string>>)
    requires env.failFast
    ensures var s := RunSchedule(env, sched);
      var rec := Record(Success(s), params, startFrom, endAt, only);
      |rec.completed| <= |sched| && rec.completed == sched[..|rec.completed|] &&
      (rec.status == SuccessStatus ==> rec.completed == sched && rec.failedTask.None? && rec.errorMessage.None?) &&
      (rec.status == FailedStatus ==>
        |rec.completed| < |sched| && s.halt.value.id == sched[|rec.completed|] &&
        rec.errorMessage == Some(HaltText(s.halt.value)) &&
        rec.failedTask == (if s.halt.value.TaskRaised? then Some(s.halt.value.id) else None))
  {
    FailFastPrefix(env, sched);
    RunFailures(env, sched);
  }

  /**
   * With fail-fast off, a task that raises does not fail the workflow:
   * the record is FAILED only when a parameter could not be resolved,
   * and a SUCCESS record still names the last failure, if any.  When a
   * task had failed with a message before that, the record keeps that
   * message rather than the one of the exception that ended the run.
   */
  lemma LenientRecord(env: Env, sched: seq<string>, params: Store, startFrom: Option<string>,
                      endAt: Option<string>, only: Option<seq<string>>)
    requires !env.failFast
    ensures var s := RunSchedule(env, sched);
      var rec := Record(Success(s), params, startFrom, endAt, only);
      (rec.status == FailedStatus <==> s.halt.Some? && s.halt.value.Unresolvable?) &&
      (rec.failedTask.Some? ==> rec.failedTask.value in sched) &&
      (rec.status == SuccessStatus ==> rec.failedTask == s.failedTask && rec.errorMessage == s.errorMessage) &&
      (rec.status == FailedStatus && Run.Given(s.errorMessage) ==> rec.errorMessage == s.errorMessage)
  {
    RunFailures(env, sched);
  }

  /**
   * With fail-fast on, an alert goes out exactly when alerting is on and a
   * task (with a non-empty id) raised; it lists as uncompleted exactly the
   * planned tasks scheduled after the failed one, in sorted order.
   */
  lemma FailFastAlert(name: string, env: Env, sched: seq<string>, planned: set<string>, send: bool)
    requires env.failFast && Distinct(sched) && SetOf(sched) == planned
    ensures var s := RunSchedule(env, sched);
      var a := Alert(name, Success(s), planned, send);
      (a.Some? <==> send && s.halt.Some? && s.halt.value.TaskRaised? && s.halt.value.id != "") &&
      (a.Some? ==> var k := |s.completed|;
        k < |sched| && a.value.completed == sched[..k] && a.value.failedTask == sched[k] &&
        a.value.reason == s.halt.value.message && a.value.uncompleted == SortedSet(SetOf(sched[k + 1..])))
  {
    var s := RunSchedule(env, sched);
    FailFastPrefix(env, sched);
    RunFailures(env, sched);
    var a := Alert(name, Success(s), planned, send);
    if a.Some? {
      var k := |s.completed|;
      AfterFailure(sched, k, planned);
      assert SetOf(s.completed) == SetOf(sched[..k]);
      SortedSetUnique(a.value.uncompleted, SetOf(sched[k + 1..]));
    }
  }

  /** The tasks of a schedule that come after position `k` are the rest of its set. */
  lemma AfterFailure(sched: seq<string>, k: nat, planned: set<string>)
    requires Distinct(sched) && SetOf(sched) == planned && k < |sched|
    ensures planned - SetOf(sched[..k]) - {sched[k]} == SetOf(sched[k + 1..])
  {
    forall x ensures x in planned - SetOf(sched[..k]) - {sched[k]} <==> x in SetOf(sched[k + 1..]) {
      if x in sched[k + 1..] {
        var j :| 0 <= j < |sched[k + 1..]| && sched[k + 1..][j] == x;
        assert sched[k + 1 + j] == x;
        assert x !in sched[..k];
      }
      if x in planned && x !in sched[..k] && x != sched[k] {
        var j :| 0 <= j < |sched| && sched[j] == x;
        assert sched[k + 1..][j - k - 1] == x;
      }
    }
  }

  // ---------------------------------------------------------------------
  // The workflow object

  class Workflow {
    const name: string
    const dag: Dag
    var executionHistory: seq<ExecutionRecord>
    var failFast: bool
    var sendAlertOnFailure: bool

    ghost predicate Valid()
      reads dag, set id | id in dag.tasks :: dag.tasks[id]
    {
      dag.Valid() && AllValid(dag.tasks)
    }

    /** A workflow over an empty DAG of the same name: fail-fast, no alerts, no history. */
    constructor(name: string)
      ensures Valid() && this.name == name && fresh(dag) && fresh(dag.paramManager) && dag.name == name
      ensures dag.tasks == map[] && dag.dependencies == map[] && dag.paramManager.params == map[]
      ensures executionHistory == [] && failFast && !sendAlertOnFailure
    {
      this.name := name;
      dag := new Dag(name);
      executionHistory := [];
      failFast := true;
      sendAlertOnFailure := false;
    }

    /** `add_task`, through the DAG. */
    method AddTask(task: Task)
      requires Valid() && task.Valid()
      modifies dag
      ensures Valid()
      ensures dag.tasks == old(dag.tasks)[task.taskId := task] && dag.dependencies == old(dag.dependencies)
    {
      dag.AddTask(task);
    }

    /** `set_dependency`, through the DAG. */
    method SetDependency(upstream: string, downstream: string) returns (err: Option<DagError>)
      requires Valid()
      modifies dag
      ensures Valid() && dag.tasks == old(dag.tasks)
      ensures err.None? <==> upstream in dag.tasks && downstream in dag.tasks
      ensures upstream !in dag.tasks ==> err == Some(UnknownUpstream(upstream))
      ensures upstream in dag.tasks && downstream !in dag.tasks ==> err == Some(UnknownDownstream(downstream))
      ensures err.Some? ==> dag.dependencies == old(dag.dependencies)
      ensures err.None? ==> dag.dependencies == old(dag.dependencies)[downstream := Succ(old(dag.dependencies), downstream) + {upstream}]
    {
      err := dag.SetDependency(upstream, downstream);
    }

    /** `set_params`, into the DAG's parameter manager. */
    method SetParams(p: Store)
      requires Valid()
      modifies dag.paramManager
      ensures Valid() && dag.paramManager.params == old(dag.paramManager.params) + p
    {
      dag.SetParams(p);
    }

    /** `set_fail_fast`. */
    method SetFailFast(failFast: bool)
      modifies this
      ensures this.failFast == failFast && sendAlertOnFailure == old(sendAlertOnFailure)
      ensures executionHistory == old(executionHistory)
    {
      this.failFast := failFast;
    }

    /** `enable_feishu_alert`: alerts on, once the alert manager is configured. */
    method EnableFeishuAlert()
      modifies this
      ensures sendAlertOnFailure && failFast == old(failFast) && executionHistory == old(executionHistory)
    {
      sendAlertOnFailure := true;
    }

    /** `disable_alert`. */
    method DisableAlert()
      modifies this
      ensures !sendAlertOnFailure && failFast == old(failFast) && executionHistory == old(executionHistory)
    {
      sendAlertOnFailure := false;
    }

    /**
     * `execute`: the DAG's sort, selection and run under the workflow's
     * fail-fast policy; one record appended whatever happens, and the
     * alert request of an alerted task failure.  The outcome of the
     * shared part, its levels and the planned tasks come back as ghosts.
     */
    method Execute(only: Option<seq<string>>, startFrom: Option<string>, endAt: Option<string>,
                   now: DateTime, depth: nat, run: (string, Dict, map<string, TaskResult>) -> TaskOutcome)
      returns (r: Result<map<string, TaskResult>, ExecError>, alert: Option<AlertRequest>,
               ghost outcome: Result<RunState, DagError>, ghost levels: seq<seq<string>>, ghost planned: set<string>,
               ghost before: map<string, Dict>)
      requires Valid() && ValidTime(now)
      modifies this, set id | id in dag.tasks :: dag.tasks[id]
      ensures Valid()
      ensures failFast == old(failFast) && sendAlertOnFailure == old(sendAlertOnFailure)
      ensures executionHistory == old(executionHistory) + [Record(outcome, old(dag.paramManager.params), startFrom, endAt, only)]
      ensures r == DagOutcome(outcome)
      ensures alert == Alert(name, outcome, planned, old(sendAlertOnFailure))
      ensures Dispatched(old(dag.tasks.Keys), old(dag.dependencies), old(dag.paramManager.params), before,
                         only, startFrom, endAt, now, depth, run, old(failFast), outcome, levels, planned)
      ensures before == old(TaskParams(dag.tasks))
      ensures outcome.Failure? ==> forall id :: id in dag.tasks ==> dag.tasks[id].params == before[id]
      ensures outcome.Success? ==>
        var pm := old(dag.paramManager.params);
        ParamsAfter(dag.tasks, before, InPlaces(pm, now, depth, before),
                    Ran(Env(Resolutions(pm, now, depth, before), old(dag.dependencies), run, old(failFast)), Schedule(levels, planned)))
    {
      before := TaskParams(dag.tasks);
      ghost var pm := dag.paramManager.params;
      ghost var env := Env(Resolutions(pm, now, depth, before), dag.dependencies, run, failFast);
      var d, chosen;
      d, levels, chosen := Dispatch(dag, only, startFrom, endAt, now, depth, run, failFast);
      outcome, planned := d, chosen;
      alert := Alert(name, d, chosen, sendAlertOnFailure);
      var rec := Record(d, dag.paramManager.params, startFrom, endAt, only);
      Log(rec, d.Success?, before, InPlaces(pm, now, depth, before), Ran(env, Schedule(levels, planned)));
      r := DagOutcome(d);
    }

    /**
     * Appends a record to the history; the tasks, which are not part of
     * the workflow object itself, keep their parameters.
     */
    method Log(rec: ExecutionRecord, ghost ran: bool, ghost before: map<string, Dict>, ghost after: map<string, Dict>, ghost started: seq<string>)
      requires Valid() && (ran ==> ParamsAfter(dag.tasks, before, after, started))
      modifies this
      ensures Valid() && (ran ==> ParamsAfter(dag.tasks, before, after, started))
      ensures forall id :: id in dag.tasks ==> dag.tasks[id].params == old(dag.tasks[id].params)
      ensures dag.paramManager.params == old(dag.paramManager.params)
      ensures executionHistory == old(executionHistory) + [rec]
      ensures failFast == old(failFast) && sendAlertOnFailure == old(sendAlertOnFailure)
    {
      executionHistory := executionHistory + [rec];
    }

    /** `get_execution_history`. */
    function GetExecutionHistory(): seq<ExecutionRecord>
      reads this
    {
      executionHistory
    }
  }
}
