/**
 * The JSON workflow configuration of `scheduler/config.py`: a task
 * configuration object becomes a task (`_create_task`), a dependency
 * entry fans out over its comma-separated ids, and `create_workflow`
 * builds a workflow from its parameters, tasks, dependencies and alert
 * settings.  Reading the JSON file is not part of this model: the
 * configuration arrives as a value, with the JSON objects as
 * insertion-ordered dictionaries.
 */
module Config {
  import opened Outcomes
  import opened Text
  import opened Params
  import opened Graph
  import opened Tasks
  import opened Dag
  import Engine

  // ---------------------------------------------------------------------
  // The configuration as data

  /** A key of a JSON object: missing, `null`, or a string. */
  datatype Field = Absent | Null | Present(text: string)

  /** `obj.get(key)`: the string, or Python's `None` for a missing or null key. */
  function Get(f: Field): (r: Option<string>)
    ensures r.Some? <==> f.Present?
  {
    match f
    case Present(s) => Some(s)
    case _ => None
  }

  /** The `init_script` key: missing or null, one path, or a list of paths. */
  datatype InitScript = NoInit | InitPath(path: string) | InitPaths(paths: seq<string>)

  /**
   * The scripts an SQL task loads with `-i`: a falsy `init_script` gives
   * none, a single path a one-element list, a list itself.
   */
  function InitScripts(s: InitScript): (r: seq<string>)
    ensures s.InitPath? ==> r == if s.path == "" then [] else [s.path]
    ensures s.InitPaths? ==> r == s.paths
    ensures s.NoInit? ==> r == []
  {
    match s
    case NoInit => []
    case InitPath(p) => if p == "" then [] else [p]
    case InitPaths(ps) => ps
  }

  /** One entry of `tasks`.  A missing `params`, `spark_config` or `hive_config` is empty. */
  datatype TaskConfig = TaskConfig(
    taskId: Field, kind: Option<string>, params: Dict,
    command: Option<string>, scriptPath: Option<string>, scriptContent: Option<string>,
    customCommand: Option<string>, workingDir: Option<string>,
    sql: Option<string>, sqlFile: Option<string>, initScript: InitScript,
    sparkConfig: Dict, hiveConfig: Dict)

  /** One entry of `dependencies`: its `from` and `to` strings, `None` when the key is missing. */
  datatype DepConfig = DepConfig(from: Option<string>, to: Option<string>)

  /** A constructed `WorkflowConfig`: the missing or null parts are already empty. */
  datatype WorkflowConfig = WorkflowConfig(
    name: string, params: Store, tasks: seq<TaskConfig>, dependencies: seq<DepConfig>, alert: Dict)

  /** Every JSON object of the configuration has distinct keys. */
  predicate WellFormed(cfg: WorkflowConfig)
  {
    && DistinctKeys(cfg.alert)
    && forall i :: 0 <= i < |cfg.tasks| ==>
         DistinctKeys(cfg.tasks[i].params) && DistinctKeys(cfg.tasks[i].sparkConfig)
         && DistinctKeys(cfg.tasks[i].hiveConfig)
  }

  /** The `ValueError` a configuration raises; a bad dependency raises the DAG's own. */
  datatype ConfigError =
    | TaskError(message: string)
    | DependencyError(error: DagError)
    | InvalidConfig(message: string)

  /** The text of the raised `ValueError`. */
  function ErrorText(e: ConfigError): (r: string)
    ensures e.DependencyError? ==> r == Engine.DagErrorText(e.error)
    ensures !e.DependencyError? ==> r == e.message
  {
    match e
    case TaskError(m) => m
    case DependencyError(d) => Engine.DagErrorText(d)
    case InvalidConfig(m) => m
  }

  // ---------------------------------------------------------------------
  // _create_task

  /** What `_create_task` passes to a task constructor. */
  datatype Built = Built(id: string, spec: TaskSpec, params: Dict, config: Dict)

  /** The `type` of the configuration that creates each task class. */
  function ConfigKind(spec: TaskSpec): (k: string)
    ensures k in KnownKinds
    ensures TypeName(spec) == if spec.HiveSql? then "hive" else k
  {
    match spec
    case Shell(_, _) => "shell"
    case Python(_, _, _, _, _) => "python"
    case PySpark(_, _, _) => "pyspark"
    case SparkSql(_, _, _, _) => "spark-sql"
    case HiveSql(_, _, _, _) => "hive-sql"
  }

  const KnownKinds: set<string> := {"shell", "python", "pyspark", "spark-sql", "hive-sql"}

  /**
   * The checks and the dispatch of `_create_task`, before the constructor
   * runs: a missing `task_id`, a missing `type`, a shell task without a
   * command, and an unsupported type each raise their own message.  A
   * Python task from a configuration never has a callable.
   */
  function Settings(c: TaskConfig): (r: Result<Built, string>)
    ensures r.Success? ==>
      && Get(c.taskId) == Some(r.value.id) && r.value.id != ""
      && c.kind == Some(ConfigKind(r.value.spec)) && r.value.params == c.params
      && (r.value.config == [] || r.value.config == c.sparkConfig || r.value.config == c.hiveConfig)
  {
    match Get(c.taskId)
    case None => Failure("任务配置缺少必要字段: task_id")
    case Some(id) =>
      if id == "" then Failure("任务配置缺少必要字段: task_id")
      else if !Given(c.kind) then Failure("任务 " + id + " 配置缺少必要字段: type")
      else
        var kind := c.kind.value;
        if kind == "shell" then
          if !Given(c.command) then Failure("Shell任务 " + id + " 配置缺少必要字段: command")
          else Success(Built(id, Shell(c.command.value, c.workingDir), c.params, []))
        else if kind == "python" then
          Success(Built(id, Python(c.scriptPath, false, c.scriptContent, c.customCommand, c.workingDir),
                        c.params, []))
        else if kind == "pyspark" then
          Success(Built(id, PySpark(c.scriptPath, c.scriptContent, c.workingDir), c.params, c.sparkConfig))
        else if kind == "spark-sql" then
          Success(Built(id, SparkSql(c.sql, c.sqlFile, c.workingDir, InitScripts(c.initScript)),
                        c.params, c.sparkConfig))
        else if kind == "hive-sql" then
          Success(Built(id, HiveSql(c.sql, c.sqlFile, c.workingDir, InitScripts(c.initScript)),
                        c.params, c.hiveConfig))
        else Failure("不支持的任务类型: " + kind)
  }

  /** `_create_task` with its constructor: the settings, or the first `ValueError` raised. */
  function TaskFrom(c: TaskConfig): (r: Result<Built, string>)
    ensures r.Success? ==> Settings(c).Success? && r == Settings(c) && HasSource(r.value.spec)
  {
    match Settings(c)
    case Failure(m) => Failure(m)
    case Success(b) =>
      ConstructionErrorSpec(b.spec);
      match ConstructionError(b.spec)
      case Some(m) => Failure(m)
      case None => Success(b)
  }

  /**
   * Which task configurations give a task: one with an id and a known
   * type, and then what that type's constructor insists on.  A Python task
   * needs a script path or script content, since no callable can be
   * configured; a custom command alone is not enough.
   */
  lemma TaskFromSucceeds(c: TaskConfig)
    ensures TaskFrom(c).Success? <==>
      && Given(Get(c.taskId)) && Given(c.kind) && c.kind.value in KnownKinds
      && (c.kind.value == "shell" ==> Given(c.command))
      && (c.kind.value in {"python", "pyspark"} ==> Given(c.scriptPath) || Given(c.scriptContent))
      && (c.kind.value in {"spark-sql", "hive-sql"} ==> Given(c.sql) || Given(c.sqlFile))
  {
    match Settings(c)
    case Failure(m) =>
    case Success(b) =>
      ConstructionErrorSpec(b.spec);
  }

  /** The errors of `_create_task` in the order the source checks them. */
  lemma TaskFromErrors(c: TaskConfig)
    ensures !Given(Get(c.taskId)) ==> TaskFrom(c) == Failure("任务配置缺少必要字段: task_id")
    ensures Given(Get(c.taskId)) && !Given(c.kind) ==>
      TaskFrom(c) == Failure("任务 " + Get(c.taskId).value + " 配置缺少必要字段: type")
    ensures Given(Get(c.taskId)) && Given(c.kind) && c.kind.value !in KnownKinds ==>
      TaskFrom(c) == Failure("不支持的任务类型: " + c.kind.value)
    ensures Given(Get(c.taskId)) && c.kind == Some("shell") && !Given(c.command) ==>
      TaskFrom(c) == Failure("Shell任务 " + Get(c.taskId).value + " 配置缺少必要字段: command")
    ensures Settings(c).Success? ==>
      TaskFrom(c) == match ConstructionError(Settings(c).value.spec)
                     case Some(m) => Failure(m)
                     case None => Settings(c)
  {
  }

  /** Which dictionary becomes the task's configuration. */
  lemma TaskFromConfig(c: TaskConfig)
    requires TaskFrom(c).Success?
    ensures var b := TaskFrom(c).value;
      b.config == if b.spec.PySpark? || b.spec.SparkSql? then c.sparkConfig
                  else if b.spec.HiveSql? then c.hiveConfig else []
  {
  }

  /** Builds every task in order; the first one that raises stops the workflow. */
  function BuiltTasks(cs: seq<TaskConfig>): (r: Result<seq<Built>, string>)
    ensures r.Success? ==> |r.value| == |cs|
  {
    if |cs| == 0 then Success([])
    else
      match TaskFrom(cs[0])
      case Failure(m) => Failure(m)
      case Success(b) =>
        match BuiltTasks(cs[1..])
        case Failure(m) => Failure(m)
        case Success(bs) => Success([b] + bs)
  }

  /** The first `|built|` configurations build, into `built`. */
  ghost predicate BuiltPrefix(cs: seq<TaskConfig>, built: seq<Built>)
  {
    |built| <= |cs| && forall j :: 0 <= j < |built| ==> TaskFrom(cs[j]) == Success(built[j])
  }

  lemma BuiltPrefixStep(cs: seq<TaskConfig>, built: seq<Built>, b: Built)
    requires BuiltPrefix(cs, built) && |built| < |cs|
    requires Settings(cs[|built|]) == Success(b) && ConstructionError(b.spec).None?
    ensures BuiltPrefix(cs, built + [b])
  {
    ConstructionErrorSpec(b.spec);
    assert TaskFrom(cs[|built|]) == Success(b);
  }

  /** What `BuiltTasks` gives once a prefix has built and the next one (if any) raised. */
  lemma {:induction false} BuiltTasksOf(cs: seq<TaskConfig>, built: seq<Built>)
    requires BuiltPrefix(cs, built)
    requires |built| < |cs| ==> TaskFrom(cs[|built|]).Failure?
    ensures |built| < |cs| ==> BuiltTasks(cs) == Failure(TaskFrom(cs[|built|]).error)
    ensures |built| == |cs| ==> BuiltTasks(cs) == Success(built)
    decreases |built|
  {
    if |built| > 0 {
      assert BuiltPrefix(cs[1..], built[1..]) by {
        forall j | 0 <= j < |built| - 1 ensures TaskFrom(cs[1..][j]) == Success(built[1..][j]) {
          assert cs[1..][j] == cs[j + 1];
          assert TaskFrom(cs[j + 1]) == Success(built[j + 1]);
        }
      }
      if |built| < |cs| {
        assert cs[1..][|built| - 1] == cs[|built|];
      }
      BuiltTasksOf(cs[1..], built[1..]);
      assert TaskFrom(cs[0]) == Success(built[0]);
      assert built == [built[0]] + built[1..];
    }
  }

  /** The workflow's task dictionary: a later task with a known id replaces the earlier one. */
  function TaskTable(bs: seq<Built>): map<string, Built>
  {
    if |bs| == 0 then map[] else TaskTable(bs[..|bs| - 1])[bs[|bs| - 1].id := bs[|bs| - 1]]
  }

  /** The table has every built id, and under it the last task built with that id. */
  lemma {:induction false} TaskTableSpec(bs: seq<Built>)
    ensures forall id :: id in TaskTable(bs) <==> exists i :: 0 <= i < |bs| && bs[i].id == id
    ensures forall i :: 0 <= i < |bs| && (forall j :: i < j < |bs| ==> bs[j].id != bs[i].id) ==>
      bs[i].id in TaskTable(bs) && TaskTable(bs)[bs[i].id] == bs[i]
  {
    if |bs| > 0 {
      var init := bs[..|bs| - 1];
      TaskTableSpec(init);
      assert forall i :: 0 <= i < |bs| - 1 ==> init[i] == bs[i];
    }
  }

  /** `get_task_ids`: the `task_id` of every entry that has the key, `None` for a null one. */
  function TaskIds(cs: seq<TaskConfig>): (ids: seq<Option<string>>)
    ensures |ids| <= |cs|
  {
    if |cs| == 0 then []
    else (if cs[0].taskId.Absent? then [] else [Get(cs[0].taskId)]) + TaskIds(cs[1..])
  }

  /** For a configuration that builds, `get_task_ids` lists the built ids in order. */
  lemma {:induction false} TaskIdsOfBuilt(cs: seq<TaskConfig>)
    requires BuiltTasks(cs).Success?
    ensures |TaskIds(cs)| == |cs|
    ensures forall i :: 0 <= i < |cs| ==> TaskIds(cs)[i] == Some(BuiltTasks(cs).value[i].id)
  {
    if |cs| > 0 {
      TaskIdsOfBuilt(cs[1..]);
    }
  }

  // ---------------------------------------------------------------------
  // Dependencies

  /** `[tid.strip() for tid in s.split(',')]`. */
  function Ids(s: string): (r: seq<string>)
    ensures |r| == |Split(s, ',')|
    ensures forall i :: 0 <= i < |r| ==> r[i] == Strip(Split(s, ',')[i])
  {
    var parts := Split(s, ',');
    seq(|parts|, i requires 0 <= i < |parts| => Strip(parts[i]))
  }

  /** Every upstream id paired with every downstream id, upstream-major. */
  function Pairs(us: seq<string>, ds: seq<string>): seq<(string, string)>
  {
    if |us| == 0 then [] else Row(us[0], ds) + Pairs(us[1..], ds)
  }

  function Row(u: string, ds: seq<string>): seq<(string, string)>
  {
    seq(|ds|, i requires 0 <= i < |ds| => (u, ds[i]))
  }

  /** The pairs are exactly the upstream and downstream ids combined. */
  lemma {:induction false} PairsSpec(us: seq<string>, ds: seq<string>)
    ensures forall u, d :: (u, d) in Pairs(us, ds) <==> u in us && d in ds
  {
    if |us| > 0 {
      var row := Row(us[0], ds);
      forall u, d ensures (u, d) in row <==> u == us[0] && d in ds {
        if d in ds && u == us[0] {
          var j :| 0 <= j < |ds| && ds[j] == d;
          assert row[j] == (u, d);
        }
      }
      PairsSpec(us[1..], ds);
      assert forall u :: u in us <==> u == us[0] || u in us[1..];
    }
  }

  /** The `set_dependency` calls of one entry; an entry without `from` or `to` gives none. */
  function DepEdges(dep: DepConfig): seq<(string, string)>
  {
    if dep.from.Some? && dep.to.Some? then Pairs(Ids(dep.from.value), Ids(dep.to.value)) else []
  }

  /** An entry links every id of its `from` list to every id of its `to` list. */
  lemma DepEdgesSpec(dep: DepConfig)
    ensures forall u, d :: (u, d) in DepEdges(dep) <==>
      dep.from.Some? && dep.to.Some? && u in Ids(dep.from.value) && d in Ids(dep.to.value)
  {
    if dep.from.Some? && dep.to.Some? {
      PairsSpec(Ids(dep.from.value), Ids(dep.to.value));
    }
  }

  /** All `set_dependency` calls of `create_workflow`, in order. */
  function Edges(deps: seq<DepConfig>): seq<(string, string)>
  {
    if |deps| == 0 then [] else DepEdges(deps[0]) + Edges(deps[1..])
  }

  /** A pair is set as a dependency exactly when some entry of the list gives it. */
  lemma {:induction false} EdgesSpec(deps: seq<DepConfig>)
    ensures forall e :: e in Edges(deps) <==> exists k :: 0 <= k < |deps| && e in DepEdges(deps[k])
  {
    if |deps| > 0 {
      var rest := Edges(deps[1..]);
      EdgesSpec(deps[1..]);
      forall e ensures e in Edges(deps) <==> exists k :: 0 <= k < |deps| && e in DepEdges(deps[k]) {
        if e in rest {
          var k :| 0 <= k < |deps| - 1 && e in DepEdges(deps[1..][k]);
          assert deps[1..][k] == deps[k + 1];
        }
        if exists k :: 0 <= k < |deps| && e in DepEdges(deps[k]) {
          var k :| 0 <= k < |deps| && e in DepEdges(deps[k]);
          if k > 0 {
            assert deps[1..][k - 1] == deps[k];
          }
        }
      }
    }
  }

  /** The dependency map the calls `set_dependency(u, d)` build from an empty one, in order. */
  function EdgeMap(es: seq<(string, string)>): Adjacency
  {
    if |es| == 0 then map[]
    else
      var m := EdgeMap(es[..|es| - 1]);
      var (u, d) := es[|es| - 1];
      m[d := Succ(m, d) + {u}]
  }

  /** `u` is an upstream of `d` exactly when some call added that edge. */
  lemma {:induction false} EdgeMapSpec(es: seq<(string, string)>)
    ensures forall u, d :: u in Succ(EdgeMap(es), d) <==> (u, d) in es
  {
    if |es| > 0 {
      var init, last := es[..|es| - 1], es[|es| - 1];
      EdgeMapSpec(init);
      assert es == init + [last];
      forall u, d ensures u in Succ(EdgeMap(es), d) <==> (u, d) in es {
        assert (u, d) in es <==> (u, d) in init || (u, d) == last;
      }
    }
  }

  /** The error of the first call whose upstream or downstream is not a task, if any. */
  function FirstBadEdge(es: seq<(string, string)>, known: set<string>): Option<DagError>
  {
    if |es| == 0 then None
    else if es[0].0 !in known then Some(UnknownUpstream(es[0].0))
    else if es[0].1 !in known then Some(UnknownDownstream(es[0].1))
    else FirstBadEdge(es[1..], known)
  }

  /** No call fails exactly when every pair names two tasks; a failing one names an unknown id. */
  lemma {:induction false} FirstBadEdgeSpec(es: seq<(string, string)>, known: set<string>)
    ensures FirstBadEdge(es, known).None? <==> forall e :: e in es ==> e.0 in known && e.1 in known
    ensures FirstBadEdge(es, known).Some? ==>
      var err := FirstBadEdge(es, known).value;
      (err.UnknownUpstream? || err.UnknownDownstream?) && err.id !in known
  {
    if |es| > 0 && es[0].0 in known && es[0].1 in known {
      FirstBadEdgeSpec(es[1..], known);
      assert forall e :: e in es <==> e == es[0] || e in es[1..];
    }
  }

  // ---------------------------------------------------------------------
  // create_workflow

  /** The `ValueError` `create_workflow` raises, if any: first the tasks, then the dependencies. */
  function BuildError(cfg: WorkflowConfig): Option<ConfigError>
  {
    match BuiltTasks(cfg.tasks)
    case Failure(m) => Some(TaskError(m))
    case Success(bs) =>
      var es := Edges(cfg.dependencies);
      match FirstBadEdge(es, TaskTable(bs).Keys)
      case Some(e) => Some(DependencyError(e))
      case None => None
  }

  /** A configuration raises nothing when its tasks build and every dependency names two of them. */
  lemma BuildErrorNone(cfg: WorkflowConfig)
    ensures BuildError(cfg).None? <==>
      && BuiltTasks(cfg.tasks).Success?
      && var known := TaskTable(BuiltTasks(cfg.tasks).value).Keys;
         forall e :: e in Edges(cfg.dependencies) ==> e.0 in known && e.1 in known
  {
    if BuiltTasks(cfg.tasks).Success? {
      var known := TaskTable(BuiltTasks(cfg.tasks).value).Keys;
      FirstBadEdgeSpec(Edges(cfg.dependencies), known);
    }
  }

  /** `alert.get('fail_fast', True)` when there is an alert section, true otherwise. */
  function FailFastSetting(alert: Dict): (r: bool)
    ensures |alert| == 0 ==> r
    ensures Lookup(alert, "fail_fast").None? ==> r
    ensures |alert| > 0 && Lookup(alert, "fail_fast").Some? ==> r == Truthy(Lookup(alert, "fail_fast").value)
  {
    if |alert| == 0 then true
    else
      match Lookup(alert, "fail_fast")
      case None => true
      case Some(v) => Truthy(v)
  }

  /** Alerts are switched on by a `"feishu"` section with a non-empty webhook URL. */
  function AlertsEnabled(alert: Dict): (r: bool)
    ensures r <==> Lookup(alert, "type") == Some(Str("feishu"))
                   && Lookup(alert, "webhook_url").Some? && Truthy(Lookup(alert, "webhook_url").value)
  {
    |alert| > 0 && Lookup(alert, "type") == Some(Str("feishu"))
    && match Lookup(alert, "webhook_url")
       case None => false
       case Some(v) => Truthy(v)
  }

  /** What a task object holds: its id and what its constructor was given or has since been set. */
  function Snapshot(t: Task): Built
    reads t
  {
    Built(t.taskId, t.spec, t.params, t.config)
  }

  /** The task dictionary as values. */
  function TaskView(tasks: map<string, Task>): map<string, Built>
    reads set id | id in tasks :: tasks[id]
  {
    map id | id in tasks :: Snapshot(tasks[id])
  }

  lemma TaskViewPut(tasks: map<string, Task>, t: Task)
    ensures TaskView(tasks[t.taskId := t]) == TaskView(tasks)[t.taskId := Snapshot(t)]
  {
  }

  /** A workflow's state as values. */
  datatype WorkflowView = WorkflowView(
    name: string, history: seq<Engine.ExecutionRecord>, params: Store, tasks: map<string, Built>,
    dependencies: Adjacency, failFast: bool, alerts: bool)

  function View(w: Engine.Workflow): WorkflowView
    reads w, w.dag, w.dag.paramManager, set id | id in w.dag.tasks :: w.dag.tasks[id]
  {
    WorkflowView(w.name, w.executionHistory, w.dag.paramManager.params, TaskView(w.dag.tasks),
                 w.dag.dependencies, w.failFast, w.sendAlertOnFailure)
  }

  /**
   * The workflow `create_workflow` returns when nothing raises: no history
   * yet, the configuration's parameters updated by the overrides, the
   * tasks as built (a later id replacing an earlier one), the dependencies
   * of all pairs in order, and the alert settings.
   */
  function Expected(cfg: WorkflowConfig, overrides: Store, built: seq<Built>): (v: WorkflowView)
    ensures v.params.Keys == cfg.params.Keys + overrides.Keys
    ensures forall k :: k in overrides ==> k in v.params && v.params[k] == overrides[k]
    ensures forall k :: k in cfg.params && k !in overrides ==> k in v.params && v.params[k] == cfg.params[k]
  {
    WorkflowView(cfg.name, [], cfg.params + overrides, TaskTable(built),
                 EdgeMap(Edges(cfg.dependencies)), FailFastSetting(cfg.alert), AlertsEnabled(cfg.alert))
  }

  /**
   * `create_workflow`: a new workflow with the configuration's parameters
   * updated by the overrides, every task added in order, every dependency
   * set, and the alert section applied; or the first `ValueError` raised.
   */
  method CreateWorkflow(cfg: WorkflowConfig, overrides: Store) returns (r: Result<Engine.Workflow, ConfigError>)
    requires WellFormed(cfg)
    ensures r.Failure? <==> BuildError(cfg).Some?
    ensures r.Failure? ==> r.error == BuildError(cfg).value
    ensures r.Success? ==>
      && fresh(r.value) && r.value.Valid() && BuiltTasks(cfg.tasks).Success?
      && View(r.value) == Expected(cfg, overrides, BuiltTasks(cfg.tasks).value)
  {
    var w := NewWorkflow(cfg.name, cfg.params + overrides);
    var built := AddTasks(w, cfg.tasks);
    if built.Failure? {
      return Failure(TaskError(built.error));
    }
    var bad := AddDependencies(w, Edges(cfg.dependencies));
    BuildErrorOf(cfg, built.value, bad);
    if bad.Some? {
      return Failure(DependencyError(bad.value));
    }
    ApplyAlert(w, cfg.alert);
    ExpectedOf(cfg, overrides, built.value, View(w));
    r := Success(w);
  }

  /** `Workflow(name)` and then `set_params`: an empty workflow holding the parameters. */
  method NewWorkflow(name: string, params: Store) returns (w: Engine.Workflow)
    ensures fresh(w) && fresh(w.dag) && w.Valid()
    ensures w.dag.tasks == map[] && w.dag.dependencies == map[] && w.failFast && !w.sendAlertOnFailure
    ensures View(w) == WorkflowView(name, [], params, map[], map[], true, false)
  {
    w := new Engine.Workflow(name);
    w.SetParams(params);
  }

  /** Once the tasks have built, the error is the first bad dependency, if any. */
  lemma BuildErrorOf(cfg: WorkflowConfig, bs: seq<Built>, bad: Option<DagError>)
    requires BuiltTasks(cfg.tasks) == Success(bs)
    requires bad == FirstBadEdge(Edges(cfg.dependencies), TaskTable(bs).Keys)
    ensures bad.None? <==> BuildError(cfg).None?
    ensures bad.Some? ==> BuildError(cfg) == Some(DependencyError(bad.value))
  {
  }

  /** A view with the expected field values is the expected view. */
  lemma ExpectedOf(cfg: WorkflowConfig, overrides: Store, bs: seq<Built>, v: WorkflowView)
    requires v.name == cfg.name && v.history == [] && v.params == cfg.params + overrides
    requires v.tasks == TaskTable(bs) && v.dependencies == EdgeMap(Edges(cfg.dependencies))
    requires v.failFast == FailFastSetting(cfg.alert) && v.alerts == AlertsEnabled(cfg.alert)
    ensures v == Expected(cfg, overrides, bs)
  {
  }

  /** The alert section of `create_workflow`: applied only when it is not empty. */
  method ApplyAlert(w: Engine.Workflow, alert: Dict)
    requires w.failFast && !w.sendAlertOnFailure
    modifies w
    ensures w.failFast == FailFastSetting(alert) && w.sendAlertOnFailure == AlertsEnabled(alert)
    ensures View(w) == old(View(w)).(failFast := FailFastSetting(alert), alerts := AlertsEnabled(alert))
  {
    if |alert| > 0 {
      if AlertsEnabled(alert) {
        w.EnableFeishuAlert();
      }
      w.SetFailFast(FailFastSetting(alert));
    }
  }

  /** The tasks loop of `create_workflow`: `_create_task` then `add_task`, for each in order. */
  method AddTasks(w: Engine.Workflow, cs: seq<TaskConfig>) returns (r: Result<seq<Built>, string>)
    requires w.Valid() && w.dag.tasks == map[] && w.dag.dependencies == map[]
    requires forall i :: 0 <= i < |cs| ==>
      DistinctKeys(cs[i].params) && DistinctKeys(cs[i].sparkConfig) && DistinctKeys(cs[i].hiveConfig)
    modifies w.dag
    ensures w.Valid() && w.dag.dependencies == map[]
    ensures r == BuiltTasks(cs)
    ensures r.Success? ==> w.dag.tasks.Keys == TaskTable(r.value).Keys
    ensures r.Success? ==> View(w) == old(View(w)).(tasks := TaskTable(r.value))
  {
    var built: seq<Built> := [];
    var i := 0;
    while i < |cs|
      invariant 0 <= i <= |cs| && |built| == i && BuiltPrefix(cs, built)
      invariant w.Valid() && w.dag.dependencies == map[]
      invariant TaskView(w.dag.tasks) == TaskTable(built) && w.dag.tasks.Keys == TaskTable(built).Keys
    {
      var s := Settings(cs[i]);
      if s.Failure? {
        BuiltTasksOf(cs, built);
        return Failure(s.error);
      }
      var err := AddBuilt(w, s.value, built);
      if err.Some? {
        BuiltTasksOf(cs, built);
        return Failure(err.value);
      }
      BuiltPrefixStep(cs, built, s.value);
      built := built + [s.value];
      i := i + 1;
    }
    BuiltTasksOf(cs, built);
    r := Success(built);
  }

  /** One step of the tasks loop: construct the task of the settings and add it. */
  method AddBuilt(w: Engine.Workflow, b: Built, ghost built: seq<Built>) returns (err: Option<string>)
    requires w.Valid() && DistinctKeys(b.params) && DistinctKeys(b.config)
    requires TaskView(w.dag.tasks) == TaskTable(built) && w.dag.tasks.Keys == TaskTable(built).Keys
    modifies w.dag
    ensures w.Valid() && w.dag.dependencies == old(w.dag.dependencies)
    ensures err == ConstructionError(b.spec)
    ensures err.None? ==> TaskView(w.dag.tasks) == TaskTable(built + [b]) && w.dag.tasks.Keys == TaskTable(built + [b]).Keys
  {
    var t := NewTask(b.id, b.spec, b.params, b.config);
    if t.Failure? {
      return Some(t.error);
    }
    ghost var before := w.dag.tasks;
    w.AddTask(t.value);
    TaskViewPut(before, t.value);
    AddedTask(built, b);
    err := None;
  }

  /** The table after one more task: that task under its id, the others as they were. */
  lemma AddedTask(bs: seq<Built>, b: Built)
    ensures TaskTable(bs + [b]) == TaskTable(bs)[b.id := b]
  {
    assert (bs + [b])[..|bs|] == bs;
  }

  /** The dependencies loop of `create_workflow`: `set_dependency` for each pair in order. */
  method AddDependencies(w: Engine.Workflow, es: seq<(string, string)>) returns (bad: Option<DagError>)
    requires w.Valid() && w.dag.dependencies == map[]
    modifies w.dag
    ensures w.Valid() && w.dag.tasks == old(w.dag.tasks)
    ensures bad == FirstBadEdge(es, old(w.dag.tasks).Keys)
    ensures bad.None? ==> View(w) == old(View(w)).(dependencies := EdgeMap(es))
  {
    var k := 0;
    while k < |es|
      invariant 0 <= k <= |es|
      invariant w.Valid() && w.dag.tasks == old(w.dag.tasks)
      invariant FirstBadEdge(es[k..], w.dag.tasks.Keys) == FirstBadEdge(es, w.dag.tasks.Keys)
      invariant w.dag.dependencies == EdgeMap(es[..k])
    {
      var err := w.SetDependency(es[k].0, es[k].1);
      if err.Some? {
        assert es[k..][0] == es[k];
        return err;
      }
      assert es[..k + 1][..k] == es[..k];
      assert es[k..][1..] == es[k + 1..];
      k := k + 1;
    }
    assert es[..k] == es;
    bad := None;
  }

  // ---------------------------------------------------------------------
  // load_workflow_from_config

  /**
   * What `load_workflow_from_config` is given, other than a file path: a
   * dictionary (its `name`, `None` when the key is missing, and the other
   * parts with missing or null ones already empty), or a value of some
   * other type.
   */
  datatype ConfigData =
    | ConfigObject(name: Option<string>, params: Store, tasks: seq<TaskConfig>,
                   dependencies: seq<DepConfig>, alert: Dict)
    | OtherData

  /** The configuration of a dictionary, or the error for one without a name or a non-dictionary. */
  function ConfigOf(data: ConfigData): (r: Result<WorkflowConfig, ConfigError>)
    ensures data.OtherData? ==> r == Failure(InvalidConfig("无效的配置数据类型，必须是字典或文件路径"))
    ensures data.ConfigObject? && data.name.None? ==> r == Failure(InvalidConfig("配置数据缺少必要字段: name"))
    ensures data.ConfigObject? && data.name.Some? ==>
      r == Success(WorkflowConfig(data.name.value, data.params, data.tasks, data.dependencies, data.alert))
  {
    match data
    case OtherData => Failure(InvalidConfig("无效的配置数据类型，必须是字典或文件路径"))
    case ConfigObject(name, params, tasks, deps, alert) =>
      match name
      case None => Failure(InvalidConfig("配置数据缺少必要字段: name"))
      case Some(n) => Success(WorkflowConfig(n, params, tasks, deps, alert))
  }

  /** `load_workflow_from_config` on a dictionary or another value: no overrides. */
  method LoadWorkflowFromConfig(data: ConfigData) returns (r: Result<Engine.Workflow, ConfigError>)
    requires ConfigOf(data).Success? ==> WellFormed(ConfigOf(data).value)
    ensures ConfigOf(data).Failure? ==> r == Failure(ConfigOf(data).error)
    ensures ConfigOf(data).Success? ==>
      && (r.Failure? <==> BuildError(ConfigOf(data).value).Some?)
      && (r.Failure? ==> r.error == BuildError(ConfigOf(data).value).value)
      && (r.Success? ==>
            && fresh(r.value) && r.value.Valid() && BuiltTasks(ConfigOf(data).value.tasks).Success?
            && View(r.value) == Expected(ConfigOf(data).value, map[], BuiltTasks(ConfigOf(data).value.tasks).value))
  {
    match ConfigOf(data)
    case Failure(e) =>
      return Failure(e);
    case Success(cfg) =>
      r := CreateWorkflow(cfg, map[]);
  }
}
