/**
 * The execution part of `DAG.execute` and `Workflow.execute` in
 * `scheduler/dag.py`: the tasks to run (all of them, `only_tasks`, and the
 * `start_from` / `end_at` filters), the schedule (the topological levels
 * with the tasks outside the selection dropped), and the task-by-task run
 * that resolves each task's parameters, hands it the results of its direct
 * dependencies and records what it returned.
 *
 * What a task does when executed (a subprocess, a Python callable) is not
 * visible here: it is the `run` function of an `Env`, from the task id,
 * its resolved parameters and its upstream results to what it returned or
 * the message of what it raised.
 */
module Run {
  import opened Outcomes
  import opened Graph
  import opened Calendar
  import opened Params
  import opened Tasks
  import opened Dag

  /** What `task.execute(upstream_results)` did. */
  datatype TaskOutcome = Succeeded(result: TaskResult) | Raised(message: string)

  /**
   * Why a run stops early: a parameter that cannot be resolved (the
   * interpreter's recursion error), or a task that raised while fail-fast
   * is on.
   */
  datatype Halt = Unresolvable(id: string) | TaskRaised(id: string, message: string)

  /**
   * The state of a run: `results`, `completed_tasks`, `failed_task_id`,
   * `error_message`, and the exception that ended it, if any.
   */
  datatype RunState = RunState(results: map<string, TaskResult>, completed: seq<string>,
                               failedTask: Option<string>, errorMessage: Option<string>,
                               halt: Option<Halt>)

  /**
   * What stays fixed while a run goes on: what resolving each task's
   * parameters gives (the manager is not changed by a run, so this is
   * known from the start; None is a recursion error), the dependencies,
   * what the tasks do, and whether a failure is fatal.
   */
  datatype Env = Env(resolved: map<string, Option<Dict>>, deps: Adjacency,
                     run: (string, Dict, map<string, TaskResult>) -> TaskOutcome, failFast: bool)

  /** The resolution of every task's parameters in the manager's store, at time `now`. */
  function Resolutions(store: Store, now: DateTime, depth: nat, initial: map<string, Dict>): (r: map<string, Option<Dict>>)
    requires ValidTime(now)
    ensures r.Keys == initial.Keys
  {
    map id | id in initial :: ResolveDict(store, now, initial[id], depth)
  }

  /** `x` itself; the term the facts of `ResolvesBy` are looked up by. */
  function Key(x: string): (r: string)
    ensures r == x
  {
    x
  }

  /**
   * `resolved` holds, for every task of `initial`, what its parameters
   * resolve to in `store`.  The facts are found only through `Key`, so a run
   * looks them up for the task it resolves and for no other.
   */
  ghost predicate ResolvesBy(resolved: map<string, Option<Dict>>, store: Store, now: DateTime, depth: nat,
                             initial: map<string, Dict>)
  {
    ValidTime(now) &&
    forall x {:trigger Key(x)} :: x in initial ==>
      x in resolved && resolved[x] == ResolveDict(store, now, initial[x], depth)
  }

  lemma ResolutionsResolve(store: Store, now: DateTime, depth: nat, initial: map<string, Dict>)
    requires ValidTime(now)
    ensures ResolvesBy(Resolutions(store, now, depth, initial), store, now, depth, initial)
  {
  }

  const Start := RunState(map[], [], None, None, None)

  // ---------------------------------------------------------------------
  // Selecting the tasks

  /** Python truthiness of an optional id: None and "" both mean "not given". */
  predicate Given(o: Option<string>)
  {
    o.Some? && o.value != ""
  }

  /** Python truthiness of an optional list: None and [] both mean "not given". */
  predicate GivenList(o: Option<seq<string>>)
  {
    o.Some? && |o.value| > 0
  }

  /** The first id of `ids` that is not a task. */
  function FirstUnknown(ids: seq<string>, known: set<string>): (r: Option<string>)
    ensures r.None? <==> forall x :: x in ids ==> x in known
    ensures r.Some? ==> r.value in ids && r.value !in known
  {
    if |ids| == 0 then None
    else if ids[0] !in known then Some(ids[0])
    else FirstUnknown(ids[1..], known)
  }

  lemma {:induction false} FirstUnknownAt(ids: seq<string>, known: set<string>, i: nat)
    requires i < |ids| && ids[i] !in known && forall j :: 0 <= j < i ==> ids[j] in known
    ensures FirstUnknown(ids, known) == Some(ids[i])
  {
    if i > 0 {
      assert ids[0] in known;
      FirstUnknownAt(ids[1..], known, i - 1);
    }
  }

  /**
   * The `ValueError` raised while choosing the tasks: an unknown id in
   * `only_tasks` (the first one), then an unknown `start_from`, then an
   * unknown `end_at`.
   */
  function ScopeError(known: set<string>, only: Option<seq<string>>, startFrom: Option<string>,
                      endAt: Option<string>): Option<DagError>
  {
    if GivenList(only) && FirstUnknown(only.value, known).Some? then Some(UnknownTask(FirstUnknown(only.value, known).value))
    else if Given(startFrom) && startFrom.value !in known then Some(UnknownStart(startFrom.value))
    else if Given(endAt) && endAt.value !in known then Some(UnknownEnd(endAt.value))
    else None
  }

  /**
   * Whether `x` is to run: it is one of `only_tasks` (or any task when that
   * is not given), it is `start_from` or depends on it, directly or not,
   * and it is `end_at` or `end_at` depends on it.
   */
  ghost predicate Selected(known: set<string>, deps: Adjacency, only: Option<seq<string>>,
                           startFrom: Option<string>, endAt: Option<string>, x: string)
  {
    (if GivenList(only) then x in only.value else x in known) &&
    (Given(startFrom) ==> x == startFrom.value || Reaches(deps, x, startFrom.value)) &&
    (Given(endAt) ==> x == endAt.value || Reaches(deps, endAt.value, x))
  }

  /** The choice of `tasks_to_execute` in `execute`. */
  method SelectTasks(dag: Dag, only: Option<seq<string>>, startFrom: Option<string>, endAt: Option<string>)
    returns (r: Result<set<string>, DagError>)
    requires dag.Valid()
    ensures r.Failure? <==> ScopeError(dag.tasks.Keys, only, startFrom, endAt).Some?
    ensures r.Failure? ==> r.error == ScopeError(dag.tasks.Keys, only, startFrom, endAt).value
    ensures r.Success? ==> r.value <= dag.tasks.Keys
    ensures r.Success? ==> forall x :: x in r.value <==>
      Selected(dag.tasks.Keys, dag.dependencies, only, startFrom, endAt, x)
  {
    var scope: set<string> := {};
    if GivenList(only) {
      var ids := only.value;
      var i := 0;
      while i < |ids|
        invariant 0 <= i <= |ids|
        invariant forall j :: 0 <= j < i ==> ids[j] in dag.tasks
        invariant forall x :: x in scope <==> x in ids[..i]
      {
        if ids[i] !in dag.tasks {
          FirstUnknownAt(ids, dag.tasks.Keys, i);
          return Failure(UnknownTask(ids[i]));
        }
        assert ids[..i + 1] == ids[..i] + [ids[i]];
        scope := scope + {ids[i]};
        i := i + 1;
      }
      assert ids[..|ids|] == ids;
    } else {
      scope := dag.tasks.Keys;
    }
    if Given(startFrom) {
      if startFrom.value !in dag.tasks {
        return Failure(UnknownStart(startFrom.value));
      }
      var down := dag.Downstream(startFrom.value);
      scope := scope * (down + {startFrom.value});
    }
    if Given(endAt) {
      if endAt.value !in dag.tasks {
        return Failure(UnknownEnd(endAt.value));
      }
      var up := dag.Upstream(endAt.value);
      scope := scope * (up + {endAt.value});
    }
    r := Success(scope);
  }

  // ---------------------------------------------------------------------
  // The schedule

  /** `[task_id for task_id in level if task_id in tasks_to_execute]`. */
  function Filter(level: seq<string>, scope: set<string>): (r: seq<string>)
    ensures forall x :: x in r <==> x in level && x in scope
  {
    if |level| == 0 then []
    else (if level[0] in scope then [level[0]] else []) + Filter(level[1..], scope)
  }

  lemma {:induction false} FilterDistinct(level: seq<string>, scope: set<string>)
    requires Distinct(level)
    ensures Distinct(Filter(level, scope))
  {
    if |level| > 0 {
      assert Distinct(level[1..]);
      FilterDistinct(level[1..], scope);
      assert level[0] !in level[1..];
    }
  }

  /** The tasks in the order they run: level after level, each filtered. */
  function Schedule(levels: seq<seq<string>>, scope: set<string>): (r: seq<string>)
    ensures forall x :: x in r ==> x in scope
  {
    if |levels| == 0 then []
    else Schedule(levels[..|levels| - 1], scope) + Filter(levels[|levels| - 1], scope)
  }

  lemma {:induction false} ScheduleMembers(levels: seq<seq<string>>, scope: set<string>)
    ensures forall x :: x in Schedule(levels, scope) <==> x in scope && exists k :: 0 <= k < |levels| && x in levels[k]
  {
    if |levels| > 0 {
      var n := |levels| - 1;
      ScheduleMembers(levels[..n], scope);
      forall x | x in scope && (exists k :: 0 <= k < |levels| && x in levels[k])
        ensures x in Schedule(levels, scope)
      {
        var k :| 0 <= k < |levels| && x in levels[k];
        if k < n {
          assert levels[..n][k] == levels[k];
        }
      }
    }
  }

  /** The schedule of a longer list of levels starts with that of a shorter one. */
  lemma {:induction false} SchedulePrefix(levels: seq<seq<string>>, scope: set<string>, i: nat)
    requires i <= |levels|
    ensures |Schedule(levels[..i], scope)| <= |Schedule(levels, scope)|
    ensures Schedule(levels, scope)[..|Schedule(levels[..i], scope)|] == Schedule(levels[..i], scope)
    decreases |levels|
  {
    if i == |levels| {
      assert levels[..i] == levels;
    } else {
      var n := |levels| - 1;
      assert levels[..n][..i] == levels[..i];
      SchedulePrefix(levels[..n], scope, i);
    }
  }

  /** The `i`-th filtered level sits in the schedule right after the levels before it. */
  lemma LevelSlice(levels: seq<seq<string>>, scope: set<string>, i: nat, sched: seq<string>, pos: nat, levelTasks: seq<string>)
    requires i < |levels| && sched == Schedule(levels, scope)
    requires pos == |Schedule(levels[..i], scope)| && levelTasks == Filter(levels[i], scope)
    ensures pos + |levelTasks| == |Schedule(levels[..i + 1], scope)| <= |sched|
    ensures forall j :: 0 <= j < |levelTasks| ==> sched[pos + j] == levelTasks[j]
  {
    assert levels[..i + 1][..i] == levels[..i];
    SchedulePrefix(levels, scope, i + 1);
    SchedulePrefix(levels, scope, i);
    assert sched[..pos + |levelTasks|] == sched[..pos] + levelTasks;
    forall j | 0 <= j < |levelTasks| ensures sched[pos + j] == levelTasks[j] {
      assert sched[pos + j] == sched[..pos + |levelTasks|][pos + j];
    }
  }

  /** Levels without repetition that share no task give a schedule without repetition. */
  lemma {:induction false} ScheduleDistinct(levels: seq<seq<string>>, scope: set<string>)
    requires forall k :: 0 <= k < |levels| ==> Distinct(levels[k])
    requires forall j, k :: 0 <= j < k < |levels| ==> SetOf(levels[j]) * SetOf(levels[k]) == {}
    ensures Distinct(Schedule(levels, scope))
  {
    if |levels| > 0 {
      var n := |levels| - 1;
      var front := levels[..n];
      assert forall k :: 0 <= k < n ==> front[k] == levels[k];
      ScheduleDistinct(front, scope);
      FilterDistinct(levels[n], scope);
      ScheduleMembers(front, scope);
      forall x | x in Filter(levels[n], scope) ensures x !in Schedule(front, scope) {
        forall k | 0 <= k < n ensures x !in front[k] {
          assert x in SetOf(levels[n]) && front[k] == levels[k];
          assert SetOf(levels[k]) * SetOf(levels[n]) == {};
          assert x !in SetOf(levels[k]) * SetOf(levels[n]);
        }
      }
      DistinctAppend(Schedule(front, scope), Filter(levels[n], scope));
    }
  }

  /** The schedule of the levels of a layering repeats no task. */
  lemma LayeredScheduleDistinct(nodes: set<string>, deps: Adjacency, levels: seq<seq<string>>, scope: set<string>)
    requires IsLayering(nodes, deps, LevelSets(levels))
    requires forall k :: 0 <= k < |levels| ==> Distinct(levels[k])
    ensures Distinct(Schedule(levels, scope))
  {
    var ls := LevelSets(levels);
    forall j, k | 0 <= j < k < |levels| ensures SetOf(levels[j]) * SetOf(levels[k]) == {} {
      assert ls[j] * ls[k] == {};
    }
    ScheduleDistinct(levels, scope);
  }

  /** The schedule of a layering runs each selected task exactly once. */
  lemma PlannedSchedule(nodes: set<string>, deps: Adjacency, levels: seq<seq<string>>, scope: set<string>)
    requires IsLayering(nodes, deps, LevelSets(levels)) && scope <= nodes
    requires forall k :: 0 <= k < |levels| ==> Distinct(levels[k])
    ensures Distinct(Schedule(levels, scope)) && SetOf(Schedule(levels, scope)) == scope
  {
    LayeredScheduleDistinct(nodes, deps, levels, scope);
    ScheduleCovers(nodes, levels, scope);
  }

  /** Every dependency of a node sits in a strictly earlier level. */
  predicate EdgesForward(deps: Adjacency, ls: seq<set<string>>)
  {
    forall j, k, x, u :: 0 <= j < |ls| && 0 <= k < |ls| && x in ls[k] && u in ls[j] && u in Succ(deps, x) ==> j < k
  }

  function Repeat(v: nat, n: nat): (r: seq<nat>)
    ensures |r| == n && forall i :: 0 <= i < n ==> r[i] == v
  {
    if n == 0 then [] else Repeat(v, n - 1) + [v]
  }

  /** The level each scheduled task comes from. */
  function LevelOf(levels: seq<seq<string>>, scope: set<string>): seq<nat>
  {
    if |levels| == 0 then []
    else LevelOf(levels[..|levels| - 1], scope) + Repeat(|levels| - 1, |Filter(levels[|levels| - 1], scope)|)
  }

  lemma {:induction false} LevelOfFacts(levels: seq<seq<string>>, scope: set<string>)
    ensures var sched, lv := Schedule(levels, scope), LevelOf(levels, scope);
      |lv| == |sched| &&
      (forall i :: 0 <= i < |lv| ==> lv[i] < |levels| && sched[i] in levels[lv[i]]) &&
      (forall i, j :: 0 <= i <= j < |lv| ==> lv[i] <= lv[j])
  {
    if |levels| > 0 {
      var n := |levels| - 1;
      LevelOfFacts(levels[..n], scope);
      var front, last := Schedule(levels[..n], scope), Filter(levels[n], scope);
      var lv := LevelOf(levels, scope);
      forall i | 0 <= i < |lv| ensures lv[i] < |levels| && Schedule(levels, scope)[i] in levels[lv[i]] {
        if i < |front| {
          assert Schedule(levels, scope)[i] == front[i];
          assert levels[..n][lv[i]] == levels[lv[i]];
        } else {
          assert Schedule(levels, scope)[i] == last[i - |front|] && last[i - |front|] in last;
        }
      }
    }
  }

  /** In the schedule, every dependency of a task that is scheduled at all comes before it. */
  lemma ScheduleOrdered(deps: Adjacency, levels: seq<seq<string>>, scope: set<string>)
    requires EdgesForward(deps, LevelSets(levels))
    ensures var sched := Schedule(levels, scope);
      forall i, j :: 0 <= i < |sched| && 0 <= j < |sched| && sched[j] in Succ(deps, sched[i]) ==> j < i
  {
    var sched, lv := Schedule(levels, scope), LevelOf(levels, scope);
    LevelOfFacts(levels, scope);
    forall i, j | 0 <= i < |sched| && 0 <= j < |sched| && sched[j] in Succ(deps, sched[i]) ensures j < i {
      assert sched[i] in SetOf(levels[lv[i]]) && sched[j] in SetOf(levels[lv[j]]);
      assert lv[j] < lv[i];
    }
  }

  // ---------------------------------------------------------------------
  // The run

  /** `{up_id: results[up_id] for up_id in dependencies.get(task_id, set()) if up_id in results}`. */
  function UpstreamResults(deps: Adjacency, results: map<string, TaskResult>, id: string): (r: map<string, TaskResult>)
    ensures forall u :: u in r <==> u in Succ(deps, id) && u in results
    ensures forall u :: u in r ==> r[u] == results[u]
  {
    map u | u in Succ(deps, id) && u in results :: results[u]
  }

  /**
   * One task: its parameters resolved, then executed; a result is stored
   * and the task counted as completed; a raise is recorded as the failure
   * and ends the run when fail-fast is on.  A run that has ended stays as
   * it is.
   */
  function Step(env: Env, s: RunState, id: string): RunState
  {
    if s.halt.Some? then s
    else match Resolved(env, id)
      case None => s.(halt := Some(Unresolvable(id)))
      case Some(p) =>
        match env.run(id, p, UpstreamResults(env.deps, s.results, id))
        case Succeeded(v) => s.(results := s.results[id := v], completed := s.completed + [id])
        case Raised(m) =>
          s.(failedTask := Some(id), errorMessage := Some(m),
             halt := if env.failFast then Some(TaskRaised(id, m)) else None)
  }

  /** The resolved parameters of a task; none for an id the run does not know. */
  function Resolved(env: Env, id: string): (r: Option<Dict>)
    ensures id in env.resolved ==> r == env.resolved[id]
  {
    if id in env.resolved then env.resolved[id] else None
  }

  /** The run of a schedule, task after task from the empty state. */
  function RunSchedule(env: Env, sched: seq<string>): RunState
  {
    if |sched| == 0 then Start
    else Step(env, RunSchedule(env, sched[..|sched| - 1]), sched[|sched| - 1])
  }

  lemma RunStep(env: Env, sched: seq<string>, k: nat)
    requires k < |sched|
    ensures RunSchedule(env, sched[..k + 1]) == Step(env, RunSchedule(env, sched[..k]), sched[k])
  {
    assert sched[..k + 1][..k] == sched[..k];
  }

  /** A state that is the run of a prefix, stepped with the next task, is the run of the longer prefix. */
  lemma RunNext(env: Env, sched: seq<string>, n: nat, prev: RunState, next: RunState)
    requires n < |sched| && prev == RunSchedule(env, sched[..n]) && next == Step(env, prev, sched[n])
    ensures next == RunSchedule(env, sched[..n + 1])
  {
    RunStep(env, sched, n);
  }

  /** Once a run has stopped, the rest of the schedule changes nothing. */
  lemma {:induction false} RunHalted(env: Env, sched: seq<string>, k: nat)
    requires k <= |sched| && RunSchedule(env, sched[..k]).halt.Some?
    ensures RunSchedule(env, sched) == RunSchedule(env, sched[..k])
  {
    if k < |sched| {
      var n := |sched| - 1;
      assert sched[..n][..k] == sched[..k];
      RunHalted(env, sched[..n], k);
    } else {
      assert sched[..k] == sched;
    }
  }

  /** The same, for a run of a longer prefix of the schedule. */
  lemma RunHaltedPrefix(env: Env, sched: seq<string>, k: nat, m: nat, s: RunState)
    requires k <= m <= |sched| && s == RunSchedule(env, sched[..k]) && s.halt.Some?
    ensures s == RunSchedule(env, sched[..m])
  {
    assert sched[..m][..k] == sched[..k];
    RunHalted(env, sched[..m], k);
  }

  /**
   * How many tasks of the schedule get as far as resolving their
   * parameters: those up to and including the one that stopped the run,
   * or all of them.
   */
  function Reached(env: Env, sched: seq<string>): (k: nat)
    ensures k <= |sched|
  {
    if |sched| == 0 then 0
    else if RunSchedule(env, sched[..|sched| - 1]).halt.Some? then Reached(env, sched[..|sched| - 1])
    else |sched|
  }

  /** The tasks of the schedule whose parameters the run resolved, in order. */
  function Ran(env: Env, sched: seq<string>): seq<string>
  {
    sched[..Reached(env, sched)]
  }

  /**
   * A run that did not stop reached every task; one that stopped reached
   * the tasks before the one that stopped it, which it still ran, and then
   * nothing else.
   */
  lemma {:induction false} ReachedSpec(env: Env, sched: seq<string>)
    ensures var k, s := Reached(env, sched), RunSchedule(env, sched);
      && (s.halt.None? ==> k == |sched|)
      && (s.halt.Some? ==>
            && 1 <= k && sched[k - 1] == s.halt.value.id
            && RunSchedule(env, sched[..k - 1]).halt.None? && RunSchedule(env, sched[..k]) == s)
  {
    if |sched| > 0 {
      var n := |sched| - 1;
      var s0 := RunSchedule(env, sched[..n]);
      if s0.halt.Some? {
        ReachedSpec(env, sched[..n]);
        var k := Reached(env, sched[..n]);
        assert sched[..n][..k - 1] == sched[..k - 1] && sched[..n][..k] == sched[..k];
      } else {
        assert sched[..|sched|] == sched;
      }
    }
  }

  /** A run that stops at position `n` reached exactly the first `n + 1` tasks. */
  lemma ReachedAt(env: Env, sched: seq<string>, n: nat)
    requires n < |sched| && RunSchedule(env, sched[..n]).halt.None? && RunSchedule(env, sched[..n + 1]).halt.Some?
    ensures Reached(env, sched) == n + 1
  {
    RunHalted(env, sched, n + 1);
    ReachedSpec(env, sched);
    var k := Reached(env, sched);
    if k < n + 1 {
      RunHaltedPrefix(env, sched, k, n, RunSchedule(env, sched[..k]));
    } else if k > n + 1 {
      RunHaltedPrefix(env, sched, n + 1, k - 1, RunSchedule(env, sched[..n + 1]));
    }
  }

  /**
   * With fail-fast on, the tasks whose parameters were resolved are the
   * completed ones and, when the run stopped, the task that stopped it.
   */
  lemma {:induction false} RanFailFast(env: Env, sched: seq<string>)
    requires env.failFast
    ensures var s := RunSchedule(env, sched);
      Ran(env, sched) == s.completed + (if s.halt.Some? then [s.halt.value.id] else [])
  {
    if |sched| > 0 {
      var n := |sched| - 1;
      var s0 := RunSchedule(env, sched[..n]);
      assert RunSchedule(env, sched) == Step(env, s0, sched[n]);
      if s0.halt.Some? {
        RanFailFast(env, sched[..n]);
        RanAfterHalt(env, sched);
      } else {
        FailFastPrefix(env, sched[..n]);
        StepFailFast(env, s0, sched[n]);
        RanAfterRunning(env, sched);
        assert sched == sched[..n] + [sched[n]];
      }
    }
  }

  /** Once the run has stopped before the last task, that task adds nothing to what was reached. */
  lemma RanAfterHalt(env: Env, sched: seq<string>)
    requires |sched| > 0 && RunSchedule(env, sched[..|sched| - 1]).halt.Some?
    ensures RunSchedule(env, sched) == RunSchedule(env, sched[..|sched| - 1])
    ensures Ran(env, sched) == Ran(env, sched[..|sched| - 1])
  {
    var n := |sched| - 1;
    var k := Reached(env, sched[..n]);
    assert sched[..n][..k] == sched[..k];
  }

  /** While the run is going at the last task, it reaches the whole schedule. */
  lemma RanAfterRunning(env: Env, sched: seq<string>)
    requires |sched| > 0 && RunSchedule(env, sched[..|sched| - 1]).halt.None?
    ensures Ran(env, sched) == sched
  {
    assert sched[..|sched|] == sched;
  }

  /** A fail-fast step from a running state either completes the task or stops the run at it. */
  lemma StepFailFast(env: Env, s0: RunState, id: string)
    requires env.failFast && s0.halt.None?
    ensures var s := Step(env, s0, id);
      s.completed + (if s.halt.Some? then [s.halt.value.id] else []) == s0.completed + [id]
  {
  }

  /** The results of a run are those of its completed tasks, which were all scheduled. */
  lemma {:induction false} RunResults(env: Env, sched: seq<string>)
    ensures var s := RunSchedule(env, sched);
      s.results.Keys == SetOf(s.completed) && forall x :: x in s.completed ==> x in sched
  {
    if |sched| > 0 {
      var n := |sched| - 1;
      RunResults(env, sched[..n]);
      var s0 := RunSchedule(env, sched[..n]);
      assert forall x :: x in sched[..n] ==> x in sched;
      assert SetOf(s0.completed + [sched[n]]) == SetOf(s0.completed) + {sched[n]};
    }
  }

  /**
   * The failure recorded and the reason a run stopped name scheduled
   * tasks; without fail-fast only an unresolvable parameter stops a run.
   */
  lemma {:induction false} RunFailures(env: Env, sched: seq<string>)
    ensures var s := RunSchedule(env, sched);
      (s.failedTask.Some? <==> s.errorMessage.Some?) &&
      (s.failedTask.Some? ==> s.failedTask.value in sched) &&
      (s.halt.Some? ==> s.halt.value.id in sched) &&
      (!env.failFast ==> s.halt.None? || s.halt.value.Unresolvable?)
  {
    if |sched| > 0 {
      var n := |sched| - 1;
      RunFailures(env, sched[..n]);
      assert forall x :: x in sched[..n] ==> x in sched;
      assert sched[n] in sched;
    }
  }

  /** A task that completed did not also fail, when every task is scheduled once. */
  lemma {:induction false} RunOnce(env: Env, sched: seq<string>)
    requires Distinct(sched)
    ensures var s := RunSchedule(env, sched);
      Distinct(s.completed) && (s.failedTask.Some? ==> s.failedTask.value !in s.completed)
  {
    if |sched| > 0 {
      var n := |sched| - 1;
      assert Distinct(sched[..n]);
      RunOnce(env, sched[..n]);
      RunResults(env, sched[..n]);
      RunFailures(env, sched[..n]);
      var s0 := RunSchedule(env, sched[..n]);
      assert sched[n] !in sched[..n];
      assert sched[n] !in s0.completed;
      assert s0.failedTask.Some? ==> s0.failedTask.value != sched[n];
      DistinctAppend(s0.completed, [sched[n]]);
    }
  }

  /**
   * With fail-fast on, the completed tasks are a prefix of the schedule:
   * all of it when nothing went wrong, and otherwise everything before the
   * task that stopped the run, which is the failed task when it raised.
   */
  lemma {:induction false} FailFastPrefix(env: Env, sched: seq<string>)
    requires env.failFast
    ensures var s := RunSchedule(env, sched);
      |s.completed| <= |sched| && s.completed == sched[..|s.completed|] &&
      (s.halt.None? ==> s.completed == sched && s.failedTask.None?) &&
      (s.halt.Some? ==> |s.completed| < |sched| && s.halt.value.id == sched[|s.completed|]) &&
      (s.failedTask.Some? <==> s.halt.Some? && s.halt.value.TaskRaised?) &&
      (s.failedTask.Some? ==> s.failedTask.value == s.halt.value.id) &&
      (s.halt.Some? && s.halt.value.TaskRaised? ==> s.errorMessage == Some(s.halt.value.message))
  {
    if |sched| > 0 {
      var n := |sched| - 1;
      FailFastPrefix(env, sched[..n]);
      var s0 := RunSchedule(env, sched[..n]);
      if s0.halt.None? {
        assert s0.completed + [sched[n]] == sched;
      } else {
        assert sched[..n][..|s0.completed|] == sched[..|s0.completed|];
        assert sched[..n][|s0.completed|] == sched[|s0.completed|];
      }
    }
  }

  /** Every selected node of the graph is scheduled. */
  lemma ScheduleCovers(nodes: set<string>, levels: seq<seq<string>>, scope: set<string>)
    requires UnionAll(LevelSets(levels)) == nodes
    ensures forall u :: u in scope && u in nodes ==> u in Schedule(levels, scope)
  {
    ScheduleMembers(levels, scope);
    forall u | u in scope && u in nodes ensures u in Schedule(levels, scope) {
      var k :| 0 <= k < |LevelSets(levels)| && u in LevelSets(levels)[k];
      assert u in levels[k];
    }
  }

  /**
   * In a prefix of a schedule whose edges all point backwards, and which
   * holds every selected dependency of its tasks, each task comes after
   * its selected dependencies.
   */
  lemma PrefixAfterDependencies(deps: Adjacency, sched: seq<string>, done: seq<string>, scope: set<string>)
    requires |done| <= |sched| && done == sched[..|done|]
    requires forall i, j :: 0 <= i < |sched| && 0 <= j < |sched| && sched[j] in Succ(deps, sched[i]) ==> j < i
    requires forall i, u :: 0 <= i < |sched| && u in Succ(deps, sched[i]) && u in scope ==> u in sched
    ensures forall i, u :: 0 <= i < |done| && u in Succ(deps, done[i]) && u in scope ==>
      exists j :: 0 <= j < i && done[j] == u
  {
    forall i, u | 0 <= i < |done| && u in Succ(deps, done[i]) && u in scope
      ensures exists j :: 0 <= j < i && done[j] == u
    {
      assert done[i] == sched[i];
      var j :| 0 <= j < |sched| && sched[j] == u;
      assert j < i && done[j] == u;
    }
  }

  /**
   * With fail-fast on and the levels of the graph, every completed task
   * had each of its selected dependencies completed before it.
   */
  lemma DependenciesFirst(env: Env, nodes: set<string>, levels: seq<seq<string>>, scope: set<string>)
    requires env.failFast && Within(env.deps, nodes)
    requires IsLayering(nodes, env.deps, LevelSets(levels))
    ensures var s := RunSchedule(env, Schedule(levels, scope));
      forall i, u :: 0 <= i < |s.completed| && u in Succ(env.deps, s.completed[i]) && u in scope ==>
        exists j :: 0 <= j < i && s.completed[j] == u
  {
    var sched := Schedule(levels, scope);
    FailFastPrefix(env, sched);
    ScheduleOrdered(env.deps, levels, scope);
    ScheduleCovers(nodes, levels, scope);
    forall i, u | 0 <= i < |sched| && u in Succ(env.deps, sched[i]) && u in scope ensures u in sched {
      assert sched[i] in env.deps;
    }
    PrefixAfterDependencies(env.deps, sched, RunSchedule(env, sched).completed, scope);
  }

  // ---------------------------------------------------------------------
  // The run as the source performs it

  /** The parameters of every task, before the run resolves them. */
  function TaskParams(tasks: map<string, Task>): (r: map<string, Dict>)
    reads set id | id in tasks :: tasks[id]
    ensures r.Keys == tasks.Keys && forall id :: id in tasks ==> r[id] == tasks[id].params
  {
    map id | id in tasks :: tasks[id].params
  }

  /** The in-place resolution of every task's parameters in the manager's store, at time `now`. */
  function InPlaces(store: Store, now: DateTime, depth: nat, initial: map<string, Dict>): (r: map<string, Dict>)
    requires ValidTime(now)
    ensures r.Keys == initial.Keys
    ensures forall id :: id in initial ==> r[id] == ResolvedInPlace(store, now, initial[id], depth)
  {
    map id | id in initial :: ResolvedInPlace(store, now, initial[id], depth)
  }

  /**
   * `after` holds, for every task of `initial`, the in-place resolution of
   * its parameters in `store`; as with `ResolvesBy`, only through `Key`.
   */
  ghost predicate InPlaceBy(after: map<string, Dict>, store: Store, now: DateTime, depth: nat, initial: map<string, Dict>)
  {
    ValidTime(now) &&
    forall x {:trigger Key(x)} :: x in initial ==>
      x in after && after[x] == ResolvedInPlace(store, now, initial[x], depth)
  }

  lemma InPlacesResolve(store: Store, now: DateTime, depth: nat, initial: map<string, Dict>)
    requires ValidTime(now)
    ensures InPlaceBy(InPlaces(store, now, depth, initial), store, now, depth, initial)
  {
  }

  /**
   * The parameters of the tasks after those of `ran` resolved theirs in
   * place: each of them holds what `after` gives for it, and every other
   * task still holds what it held `before`.
   */
  ghost predicate ParamsAfter(tasks: map<string, Task>, before: map<string, Dict>, after: map<string, Dict>, ran: seq<string>)
    reads set id | id in tasks :: tasks[id]
  {
    forall id {:trigger Key(id)} :: id in tasks ==>
      id in before && id in after && tasks[id].params == (if id in ran then after[id] else before[id])
  }

  /** Every task is filed under its own id. */
  ghost predicate Keyed(tasks: map<string, Task>)
  {
    forall id :: id in tasks ==> tasks[id].taskId == id
  }

  /** Every task keeps its parameters and configuration well formed. */
  ghost predicate AllValid(tasks: map<string, Task>)
    reads set id | id in tasks :: tasks[id]
  {
    forall id :: id in tasks ==> tasks[id].Valid()
  }

  /**
   * What the loops of a run share: the tasks keyed by their ids, the run's
   * inputs recorded in `env`, and every task's parameters resolved by the
   * manager's store.
   */
  ghost predicate RunContext(tasks: map<string, Task>, deps: Adjacency, store: Store, now: DateTime, depth: nat,
                             run: (string, Dict, map<string, TaskResult>) -> TaskOutcome, failFast: bool,
                             initial: map<string, Dict>, env: Env)
  {
    Keyed(tasks) && ValidTime(now)
    && env.deps == deps && env.run == run && env.failFast == failFast
    && ResolvesBy(env.resolved, store, now, depth, initial)
  }

  /**
   * The body of the inner loop for task `sched[n]`: resolve its parameters
   * in place, run it on the results of its dependencies, record the outcome.
   */
  method RunTask(tasks: map<string, Task>, deps: Adjacency, pm: ParamManager, state: RunState, id: string, now: DateTime, depth: nat,
                 run: (string, Dict, map<string, TaskResult>) -> TaskOutcome, failFast: bool,
                 ghost initial: map<string, Dict>, ghost env: Env, ghost sched: seq<string>, ghost n: nat)
    returns (next: RunState)
    requires RunContext(tasks, deps, pm.params, now, depth, run, failFast, initial, env)
    requires id in tasks && state.halt.None?
    requires Distinct(sched) && n < |sched| && sched[n] == id
    requires AllValid(tasks) && id in initial && tasks[id].params == initial[id]
    modifies tasks[id]
    ensures next == Step(env, state, id)
    ensures AllValid(tasks)
    ensures tasks[id].params == ResolvedInPlace(pm.params, now, old(tasks[id].params), depth)
    ensures forall other :: other in tasks && other != id ==> tasks[other].params == old(tasks[other].params)
  {
    var task := tasks[id];
    assert Key(id) in initial;
    var upstream := UpstreamResults(deps, state.results, id);
    var ok := task.ResolveParams(pm, now, depth);
    forall other | other in tasks ensures tasks[other].Valid() {
      assert tasks[other].taskId == other;
    }
    forall other | other in tasks && other != id ensures tasks[other].params == old(tasks[other].params) {
      assert tasks[other].taskId == other;
    }
    if !ok {
      return state.(halt := Some(Unresolvable(id)));
    }
    var outcome := run(id, task.params, upstream);
    match outcome {
      case Succeeded(v) =>
        next := state.(results := state.results[id := v], completed := state.completed + [id]);
      case Raised(m) =>
        next := state.(failedTask := Some(id), errorMessage := Some(m),
                       halt := if failFast then Some(TaskRaised(id, m)) else None);
    }
  }

  /**
   * Where a run stands after the first `k` tasks of the schedule: in the
   * state their run gives, not stopped, and with every task well formed.
   */
  ghost predicate Progress(tasks: map<string, Task>, env: Env, sched: seq<string>,
                           k: nat, state: RunState)
    reads set id | id in tasks :: tasks[id]
  {
    k <= |sched| && state == RunSchedule(env, sched[..k]) && state.halt.None?
    && AllValid(tasks)
  }

  /** A run that has gone through the first `k` tasks of the schedule and holds their parameters. */
  ghost predicate Going(tasks: map<string, Task>, initial: map<string, Dict>, after: map<string, Dict>, env: Env, sched: seq<string>,
                        k: nat, state: RunState)
    reads set id | id in tasks :: tasks[id]
  {
    Progress(tasks, env, sched, k, state) && ParamsAfter(tasks, initial, after, sched[..k])
  }

  /**
   * A run that stopped within the first `end` tasks of the schedule: its
   * state is the one the whole schedule gives, and the tasks it started
   * hold their resolved parameters.
   */
  ghost predicate Halted(tasks: map<string, Task>, initial: map<string, Dict>, after: map<string, Dict>, env: Env, sched: seq<string>,
                          end: nat, state: RunState)
    reads set id | id in tasks :: tasks[id]
  {
    end <= |sched| && state == RunSchedule(env, sched[..end]) && ParamsAfter(tasks, initial, after, Ran(env, sched))
  }

  /** What `RunTaskAt` promises, folded into `Going` and `Halted`. */
  lemma Fold(tasks: map<string, Task>, initial: map<string, Dict>, after: map<string, Dict>, env: Env, sched: seq<string>,
             n: nat, end: nat, next: RunState)
    requires n < end <= |sched|
    requires next.halt.Some? ==> next == RunSchedule(env, sched[..end]) && ParamsAfter(tasks, initial, after, Ran(env, sched))
    requires next.halt.None? ==> Progress(tasks, env, sched, n + 1, next) && ParamsAfter(tasks, initial, after, sched[..n + 1])
    ensures next.halt.Some? ==> Halted(tasks, initial, after, env, sched, end, next)
    ensures next.halt.None? ==> Going(tasks, initial, after, env, sched, n + 1, next)
  {
  }

  /** `RunTask` as a step of the run of the schedule, inside the stretch that ends at `end`. */
  method RunTaskAt(tasks: map<string, Task>, deps: Adjacency, pm: ParamManager, state: RunState, id: string, now: DateTime, depth: nat,
                   run: (string, Dict, map<string, TaskResult>) -> TaskOutcome, failFast: bool,
                   ghost initial: map<string, Dict>, ghost env: Env, ghost sched: seq<string>, ghost n: nat, ghost end: nat,
                   ghost after: map<string, Dict>)
    returns (next: RunState)
    requires RunContext(tasks, deps, pm.params, now, depth, run, failFast, initial, env)
    requires InPlaceBy(after, pm.params, now, depth, initial)
    requires Distinct(sched) && n < end <= |sched| && sched[n] == id && id in tasks
    requires Going(tasks, initial, after, env, sched, n, state)
    modifies tasks[id]
    ensures AllValid(tasks)
    ensures next.halt.Some? ==> next == RunSchedule(env, sched[..end])
    ensures next.halt.Some? ==> ParamsAfter(tasks, initial, after, Ran(env, sched))
    ensures next.halt.None? ==> Progress(tasks, env, sched, n + 1, next)
    ensures next.halt.None? ==> ParamsAfter(tasks, initial, after, sched[..n + 1])
  {
    assert sched[..n + 1] == sched[..n] + [id] && id !in sched[..n];
    assert Key(id) in tasks;
    next := RunTask(tasks, deps, pm, state, id, now, depth, run, failFast, initial, env, sched, n);
    assert Key(id) in initial;
    forall x | x in tasks
      ensures x in initial && x in after && tasks[x].params == (if x in sched[..n + 1] then after[x] else initial[x])
    {
      assert Key(x) in tasks;
      if x != id {
        assert (x in sched[..n + 1]) == (x in sched[..n]);
      }
    }
    RunNext(env, sched, n, state, next);
    if next.halt.Some? {
      RunHaltedPrefix(env, sched, n + 1, end, next);
      ReachedAt(env, sched, n);
    }
  }

  /**
   * The inner loop, over the tasks of one filtered level, which sit at
   * positions `pos` onwards of the schedule.
   */
  method RunLevel(tasks: map<string, Task>, deps: Adjacency, pm: ParamManager, levelTasks: seq<string>, state: RunState, now: DateTime, depth: nat,
                  run: (string, Dict, map<string, TaskResult>) -> TaskOutcome, failFast: bool,
                  ghost initial: map<string, Dict>, ghost env: Env, ghost sched: seq<string>, ghost pos: nat,
                  ghost after: map<string, Dict>)
    returns (next: RunState)
    requires RunContext(tasks, deps, pm.params, now, depth, run, failFast, initial, env)
    requires InPlaceBy(after, pm.params, now, depth, initial)
    requires Distinct(sched) && pos + |levelTasks| <= |sched| && forall k :: 0 <= k < |sched| ==> sched[k] in tasks
    requires forall j :: 0 <= j < |levelTasks| ==> sched[pos + j] == levelTasks[j]
    requires Going(tasks, initial, after, env, sched, pos, state)
    modifies set id | id in tasks :: tasks[id]
    ensures AllValid(tasks)
    ensures next.halt.Some? ==> Halted(tasks, initial, after, env, sched, pos + |levelTasks|, next)
    ensures next.halt.None? ==> Going(tasks, initial, after, env, sched, pos + |levelTasks|, next)
  {
    next := state;
    var j := 0;
    ghost var n := pos;
    while j < |levelTasks|
      invariant 0 <= j <= |levelTasks| && n == pos + j
      invariant Going(tasks, initial, after, env, sched, n, next)
    {
      next := RunTaskAt(tasks, deps, pm, next, levelTasks[j], now, depth, run, failFast, initial, env, sched, n,
                        pos + |levelTasks|, after);
      Fold(tasks, initial, after, env, sched, n, pos + |levelTasks|, next);
      if next.halt.Some? {
        return;
      }
      j := j + 1;
      n := n + 1;
    }
  }

  /**
   * The loops over the levels and the tasks of each filtered level.  Each
   * task's parameters are resolved in place, by the DAG's parameter
   * manager, before it runs; the run ends at the first exception that is
   * not swallowed.
   */
  method RunLevels(tasks: map<string, Task>, deps: Adjacency, pm: ParamManager, levels: seq<seq<string>>, scope: set<string>, now: DateTime, depth: nat,
                   run: (string, Dict, map<string, TaskResult>) -> TaskOutcome, failFast: bool,
                   ghost initial: map<string, Dict>, ghost env: Env, ghost after: map<string, Dict>)
    returns (state: RunState)
    requires RunContext(tasks, deps, pm.params, now, depth, run, failFast, initial, env)
    requires InPlaceBy(after, pm.params, now, depth, initial)
    requires Distinct(Schedule(levels, scope))
    requires forall k :: 0 <= k < |Schedule(levels, scope)| ==> Schedule(levels, scope)[k] in tasks
    requires AllValid(tasks)
    requires ParamsAfter(tasks, initial, after, [])
    modifies set id | id in tasks :: tasks[id]
    ensures state == RunSchedule(env, Schedule(levels, scope))
    ensures AllValid(tasks)
    ensures ParamsAfter(tasks, initial, after, Ran(env, Schedule(levels, scope)))
  {
    ghost var sched := Schedule(levels, scope);
    state := Start;
    var i := 0;
    ghost var pos := 0;
    assert levels[..0] == [] && sched[..0] == [];
    while i < |levels|
      invariant 0 <= i <= |levels| && pos == |Schedule(levels[..i], scope)|
      invariant Progress(tasks, env, sched, pos, state)
      invariant ParamsAfter(tasks, initial, after, sched[..pos])
    {
      state, pos := RunLevelAt(tasks, deps, pm, levels, scope, i, state, now, depth, run, failFast, initial, env, sched, pos, after);
      if state.halt.Some? {
        return;
      }
      i := i + 1;
    }
    ScheduleWhole(levels, scope, sched, i, pos);
    RanWhole(env, sched);
  }

  /** One round of the outer loop: the filtered level `levels[i]`, which starts at position `pos` of the schedule. */
  method RunLevelAt(tasks: map<string, Task>, deps: Adjacency, pm: ParamManager, levels: seq<seq<string>>, scope: set<string>, i: nat,
                    state: RunState, now: DateTime, depth: nat,
                    run: (string, Dict, map<string, TaskResult>) -> TaskOutcome, failFast: bool,
                    ghost initial: map<string, Dict>, ghost env: Env, ghost sched: seq<string>, ghost pos: nat,
                    ghost after: map<string, Dict>)
    returns (next: RunState, ghost pos': nat)
    requires RunContext(tasks, deps, pm.params, now, depth, run, failFast, initial, env)
    requires InPlaceBy(after, pm.params, now, depth, initial)
    requires i < |levels| && sched == Schedule(levels, scope) && Distinct(sched)
    requires forall k :: 0 <= k < |sched| ==> sched[k] in tasks
    requires pos == |Schedule(levels[..i], scope)|
    requires Progress(tasks, env, sched, pos, state)
    requires ParamsAfter(tasks, initial, after, sched[..pos])
    modifies set id | id in tasks :: tasks[id]
    ensures AllValid(tasks)
    ensures next.halt.Some? ==> next == RunSchedule(env, sched)
    ensures next.halt.Some? ==> ParamsAfter(tasks, initial, after, Ran(env, sched))
    ensures next.halt.None? ==> pos' == |Schedule(levels[..i + 1], scope)|
    ensures next.halt.None? ==> Progress(tasks, env, sched, pos', next)
    ensures next.halt.None? ==> ParamsAfter(tasks, initial, after, sched[..pos'])
  {
    var levelTasks := Filter(levels[i], scope);
    LevelSlice(levels, scope, i, sched, pos, levelTasks);
    pos' := pos + |levelTasks|;
    next := RunLevel(tasks, deps, pm, levelTasks, state, now, depth, run, failFast, initial, env, sched, pos, after);
    if next.halt.Some? {
      RunHaltedWhole(env, sched, pos', next);
    }
  }

  /** After the last level, the positions run cover the whole schedule. */
  lemma ScheduleWhole(levels: seq<seq<string>>, scope: set<string>, sched: seq<string>, i: nat, pos: nat)
    requires i == |levels| && sched == Schedule(levels, scope) && pos == |Schedule(levels[..i], scope)|
    ensures pos == |sched| && sched[..pos] == sched
  {
    assert levels[..i] == levels;
  }

  /** A run that goes through the whole schedule reaches its end. */
  lemma RanWhole(env: Env, sched: seq<string>)
    requires RunSchedule(env, sched).halt.None?
    ensures Ran(env, sched) == sched
  {
    ReachedSpec(env, sched);
  }

  /** A state that halted after the first `k` tasks is the state after the whole schedule. */
  lemma RunHaltedWhole(env: Env, sched: seq<string>, k: nat, s: RunState)
    requires k <= |sched| && s == RunSchedule(env, sched[..k]) && s.halt.Some?
    ensures s == RunSchedule(env, sched)
  {
    RunHalted(env, sched, k);
  }

  /** The exception `execute` ends with. */
  datatype ExecError = Invalid(error: DagError) | Stopped(halt: Halt)

  /** What a run returns: the results, or the exception that stopped it. */
  function Outcome(s: RunState): (r: Result<map<string, TaskResult>, ExecError>)
    ensures r.Success? <==> s.halt.None?
    ensures r.Success? ==> r.value == s.results
    ensures r.Failure? ==> r.error == Stopped(s.halt.value)
  {
    if s.halt.Some? then Failure(Stopped(s.halt.value)) else Success(s.results)
  }

  /**
   * What the shared part of `execute` does with tasks `known` having
   * parameters `initial`, dependencies `deps` and the manager's `store`:
   * a cycle fails it, then an unknown id in the selection; otherwise the
   * levels are those of the graph, `planned` holds exactly the selected
   * tasks, scheduled once each in level order, and the outcome is the run
   * of that schedule.  On an error nothing is planned.
   */
  ghost predicate Dispatched(known: set<string>, deps: Adjacency, store: Store, initial: map<string, Dict>,
                             only: Option<seq<string>>, startFrom: Option<string>, endAt: Option<string>,
                             now: DateTime, depth: nat, run: (string, Dict, map<string, TaskResult>) -> TaskOutcome,
                             failFast: bool, d: Result<RunState, DagError>, levels: seq<seq<string>>, planned: set<string>)
    requires ValidTime(now)
  {
    && (HasCycle(known, deps) ==> d == Failure(Cycle) && planned == {})
    && (!HasCycle(known, deps) && ScopeError(known, only, startFrom, endAt).Some? ==>
          d == Failure(ScopeError(known, only, startFrom, endAt).value) && planned == {})
    && (!HasCycle(known, deps) && ScopeError(known, only, startFrom, endAt).None? ==>
          && LevelSets(levels) == Levels(known, deps)
          && planned <= known
          && (forall x :: x in planned <==> Selected(known, deps, only, startFrom, endAt, x))
          && Distinct(Schedule(levels, planned)) && SetOf(Schedule(levels, planned)) == planned
          && d == Success(RunSchedule(Env(Resolutions(store, now, depth, initial), deps, run, failFast),
                                      Schedule(levels, planned))))
  }

  /**
   * The part `DAG.execute` and `Workflow.execute` share: sort, select, run.
   * The result is the `ValueError` of the sort or the selection, or the
   * state the run ended in; `planned` is the selection (empty on an
   * error) and the levels are returned alongside, as a ghost.
   */
  method Dispatch(dag: Dag, only: Option<seq<string>>, startFrom: Option<string>, endAt: Option<string>,
                  now: DateTime, depth: nat, run: (string, Dict, map<string, TaskResult>) -> TaskOutcome, failFast: bool)
    returns (d: Result<RunState, DagError>, ghost levels: seq<seq<string>>, planned: set<string>)
    requires dag.Valid() && ValidTime(now) && AllValid(dag.tasks)
    modifies set id | id in dag.tasks :: dag.tasks[id]
    ensures AllValid(dag.tasks)
    ensures Dispatched(old(dag.tasks.Keys), old(dag.dependencies), old(dag.paramManager.params), old(TaskParams(dag.tasks)),
                       only, startFrom, endAt, now, depth, run, failFast, d, levels, planned)
    ensures d.Failure? ==> forall id :: id in dag.tasks ==> dag.tasks[id].params == old(dag.tasks[id].params)
    ensures d.Success? ==>
      ParamsAfter(dag.tasks, old(TaskParams(dag.tasks)), old(InPlaces(dag.paramManager.params, now, depth, TaskParams(dag.tasks))),
                  Ran(Env(old(Resolutions(dag.paramManager.params, now, depth, TaskParams(dag.tasks))),
                          old(dag.dependencies), run, failFast), Schedule(levels, planned)))
  {
    levels, planned := [], {};
    ghost var initial := TaskParams(dag.tasks);
    var sorted := dag.TopologicalSort();
    if sorted.Failure? {
      return Failure(sorted.error), levels, planned;
    }
    var ls := sorted.value;
    levels := ls;
    var selected := SelectTasks(dag, only, startFrom, endAt);
    if selected.Failure? {
      return Failure(selected.error), levels, planned;
    }
    var chosen := selected.value;
    planned := chosen;
    PlannedSchedule(dag.tasks.Keys, dag.dependencies, ls, chosen);
    ghost var env := Env(Resolutions(dag.paramManager.params, now, depth, initial), dag.dependencies, run, failFast);
    ResolutionsResolve(dag.paramManager.params, now, depth, initial);
    ghost var sched := Schedule(ls, chosen);
    ghost var after := InPlaces(dag.paramManager.params, now, depth, initial);
    InPlacesResolve(dag.paramManager.params, now, depth, initial);
    forall i | 0 <= i < |sched|
      ensures sched[i] in dag.tasks
    {
      assert sched[i] in chosen;
    }
    var state := RunLevels(dag.tasks, dag.dependencies, dag.paramManager, ls, chosen, now, depth, run, failFast, initial, env, after);
    d := Success(state);
  }

  /** What `DAG.execute` returns, from what the shared part gave. */
  function DagOutcome(d: Result<RunState, DagError>): (r: Result<map<string, TaskResult>, ExecError>)
    ensures d.Failure? ==> r == Failure(Invalid(d.error))
    ensures d.Success? ==> r == Outcome(d.value)
  {
    if d.Failure? then Failure(Invalid(d.error)) else Outcome(d.value)
  }

  /**
   * `DAG.execute`: sort, select, run with every failure fatal.  The levels
   * and the selection it worked with are returned alongside, as ghosts.
   */
  method DagExecute(dag: Dag, only: Option<seq<string>>, startFrom: Option<string>, endAt: Option<string>,
                    now: DateTime, depth: nat, run: (string, Dict, map<string, TaskResult>) -> TaskOutcome)
    returns (r: Result<map<string, TaskResult>, ExecError>, ghost levels: seq<seq<string>>, ghost scope: set<string>)
    requires dag.Valid() && ValidTime(now) && AllValid(dag.tasks)
    modifies set id | id in dag.tasks :: dag.tasks[id]
    ensures old(HasCycle(dag.tasks.Keys, dag.dependencies)) ==> r == Failure(Invalid(Cycle))
    ensures old(!HasCycle(dag.tasks.Keys, dag.dependencies) && ScopeError(dag.tasks.Keys, only, startFrom, endAt).Some?) ==>
      r == Failure(Invalid(old(ScopeError(dag.tasks.Keys, only, startFrom, endAt).value)))
    ensures old(!HasCycle(dag.tasks.Keys, dag.dependencies) && ScopeError(dag.tasks.Keys, only, startFrom, endAt).None?) ==>
      LevelSets(levels) == old(Levels(dag.tasks.Keys, dag.dependencies))
    ensures old(!HasCycle(dag.tasks.Keys, dag.dependencies) && ScopeError(dag.tasks.Keys, only, startFrom, endAt).None?) ==>
      scope <= old(dag.tasks.Keys) &&
      forall x :: x in scope <==> old(Selected(dag.tasks.Keys, dag.dependencies, only, startFrom, endAt, x))
    ensures old(!HasCycle(dag.tasks.Keys, dag.dependencies) && ScopeError(dag.tasks.Keys, only, startFrom, endAt).None?) ==>
      r == Outcome(RunSchedule(old(Env(Resolutions(dag.paramManager.params, now, depth, TaskParams(dag.tasks)),
                                       dag.dependencies, run, true)),
                               Schedule(levels, scope)))
    ensures old(HasCycle(dag.tasks.Keys, dag.dependencies) || ScopeError(dag.tasks.Keys, only, startFrom, endAt).Some?) ==>
      forall id :: id in dag.tasks ==> dag.tasks[id].params == old(dag.tasks[id].params)
    ensures old(!HasCycle(dag.tasks.Keys, dag.dependencies) && ScopeError(dag.tasks.Keys, only, startFrom, endAt).None?) ==>
      ParamsAfter(dag.tasks, old(TaskParams(dag.tasks)), old(InPlaces(dag.paramManager.params, now, depth, TaskParams(dag.tasks))),
                  Ran(old(Env(Resolutions(dag.paramManager.params, now, depth, TaskParams(dag.tasks)),
                              dag.dependencies, run, true)), Schedule(levels, scope)))
  {
    var d, planned;
    d, levels, planned := Dispatch(dag, only, startFrom, endAt, now, depth, run, true);
    scope := planned;
    r := DagOutcome(d);
  }
}
