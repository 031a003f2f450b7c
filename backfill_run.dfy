/**
 * The date loop of `run_backfill` in `scheduler_cli.py`: for each date
 * point the workflow configuration is copied, its whole-value `${...}`
 * parameters are rewritten relative to the point, the task parameters
 * and custom commands are filled from the point's date parameters, the
 * workflow is built and run, and the failing points are collected.
 * Running a workflow is a parameter here (`RunWorkflow`): the executor
 * itself is the `Engine` module.
 */
module BackfillRun {
  import opened Outcomes
  import opened Text
  import opened Calendar
  import opened Params
  import opened Tasks
  import opened Config
  import opened Backfill

  // ---------------------------------------------------------------------
  // The workflow's own parameters

  /**
   * The date texts of template bodies on one day: `TemplateText` on that
   * day.  The rewrite below is stated for any such function of the body.
   */
  function DayTexts(day: Date): string -> Option<string>
  {
    body => if Valid(day) then TemplateText(body, day) else None
  }

  /** What a workflow parameter becomes: None where its offset leaves datetime's range. */
  function Rewritten(v: Value, text: string -> Option<string>): Option<Value>
  {
    if !IsTemplate(v) then Some(v)
    else match text(Body(v))
      case None => None
      case Some(t) => Some(Str(t))
  }

  /**
   * One entry of the workflow `params`: a `${...}` value becomes its date
   * text, which is also stored in the date parameters, with a
   * `<key>_no_dash` companion when the text has a dash.
   */
  function RewriteEntry(key: string, v: Value, dp: Dict, text: string -> Option<string>): (r: Result<(Value, Dict), Stop>)
    ensures r.Success? <==> Rewritten(v, text).Some?
    ensures r.Failure? ==> r.error == ShiftOverflow(key)
    ensures r.Success? ==> r.value.0 == Rewritten(v, text).value
    ensures !IsTemplate(v) ==> r == Success((v, dp))
  {
    if !IsTemplate(v) then Success((v, dp))
    else match text(Body(v))
      case None => Failure(ShiftOverflow(key))
      case Some(t) =>
        var dp1 := Put(dp, key, Str(t));
        Success((Str(t), if '-' in t then Put(dp1, NoDashKey(key), Str(RemoveDashes(t))) else dp1))
  }

  /** The loop over `workflow_params.items()`, in order; the first overflow ends it. */
  function RewriteParams(ps: Dict, dp: Dict, text: string -> Option<string>): Result<(Dict, Dict), Stop>
    decreases |ps|
  {
    if |ps| == 0 then Success(([], dp))
    else
      match RewriteEntry(ps[0].0, ps[0].1, dp, text)
      case Failure(e) => Failure(e)
      case Success(step) =>
        Prefixed([(ps[0].0, step.0)], RewriteParams(ps[1..], step.1, text))
  }

  /** `prefix` in front of the parameters of a successful rewrite. */
  function Prefixed(prefix: Dict, r: Result<(Dict, Dict), Stop>): Result<(Dict, Dict), Stop>
  {
    match r
    case Failure(e) => Failure(e)
    case Success(p) => Success((prefix + p.0, p.1))
  }

  lemma PrefixedTwice(a: Dict, b: Dict, r: Result<(Dict, Dict), Stop>)
    ensures Prefixed(a, Prefixed(b, r)) == Prefixed(a + b, r)
  {
    if r.Success? {
      assert a + (b + r.value.0) == (a + b) + r.value.0;
    }
  }

  lemma PrefixedEmpty(r: Result<(Dict, Dict), Stop>)
    ensures Prefixed([], r) == r
  {
    if r.Success? {
      assert [] + r.value.0 == r.value.0;
    }
  }

  /** One turn of the rewrite loop: the entry at `i` comes next. */
  lemma RewriteStep(ps: Dict, dp: Dict, text: string -> Option<string>, i: nat)
    requires i < |ps|
    ensures RewriteParams(ps[i..], dp, text) ==
      match RewriteEntry(ps[i].0, ps[i].1, dp, text)
      case Failure(e) => Failure(e)
      case Success(step) => Prefixed([(ps[i].0, step.0)], RewriteParams(ps[i + 1..], step.1, text))
  {
    assert ps[i..][0] == ps[i] && ps[i..][1..] == ps[i + 1..];
  }

  lemma SetAt(d: Dict, i: nat, x: (string, Value))
    requires i < |d|
    ensures d[i := x][..i + 1] == d[..i] + [x] && d[i := x][i + 1..] == d[i + 1..]
  {
  }

  /**
   * The rewrite of `workflow_params`, assigning each rewritten value in
   * place, and the date parameters it leaves.
   */
  method RewriteWorkflowParams(ps: Dict, dp0: Dict, text: string -> Option<string>) returns (r: Result<(Dict, Dict), Stop>)
    ensures r == RewriteParams(ps, dp0, text)
  {
    var out := ps;
    var dp := dp0;
    var i := 0;
    PrefixedEmpty(RewriteParams(ps, dp0, text));
    while i < |ps|
      invariant 0 <= i <= |ps| && |out| == |ps| && out[i..] == ps[i..]
      invariant RewriteParams(ps, dp0, text) == Prefixed(out[..i], RewriteParams(ps[i..], dp, text))
    {
      assert out[i] == out[i..][0] == ps[i];
      var (key, value) := out[i];
      RewriteStep(ps, dp, text, i);
      var step := RewriteEntry(key, value, dp, text);
      if step.Failure? {
        return Failure(step.error);
      }
      PrefixedTwice(out[..i], [(key, step.value.0)], RewriteParams(ps[i + 1..], step.value.1, text));
      SetAt(out, i, (key, step.value.0));
      out := out[i := (key, step.value.0)];
      dp := step.value.1;
      i := i + 1;
    }
    assert out[..i] + [] == out;
    r := Success((out, dp));
  }

  /** The index of the first parameter whose offset leaves datetime's range. */
  function FirstOverflow(ps: Dict, text: string -> Option<string>): (r: Option<nat>)
    ensures r.None? <==> forall i :: 0 <= i < |ps| ==> Rewritten(ps[i].1, text).Some?
    ensures r.Some? ==> r.value < |ps| && Rewritten(ps[r.value].1, text).None?
    ensures r.Some? ==> forall j :: 0 <= j < r.value ==> Rewritten(ps[j].1, text).Some?
    decreases |ps|
  {
    if |ps| == 0 then None
    else if Rewritten(ps[0].1, text).None? then Some(0)
    else
      var r := FirstOverflow(ps[1..], text);
      assert forall j :: 0 <= j < |ps| - 1 ==> ps[1..][j] == ps[j + 1];
      if r.None? then None else Some(r.value + 1)
  }

  /**
   * The rewrite keeps every key in its place and changes only the
   * `${...}` values, each to its date text; it fails exactly when some
   * offset leaves datetime's range, naming the first such key.
   */
  lemma {:induction false} RewriteParamsSpec(ps: Dict, dp: Dict, text: string -> Option<string>)
    ensures RewriteParams(ps, dp, text).Success? <==> FirstOverflow(ps, text).None?
    ensures RewriteParams(ps, dp, text).Failure? ==>
      RewriteParams(ps, dp, text).error == ShiftOverflow(ps[FirstOverflow(ps, text).value].0)
    ensures RewriteParams(ps, dp, text).Success? ==>
      var out := RewriteParams(ps, dp, text).value.0;
      |out| == |ps| && forall i :: 0 <= i < |ps| ==> out[i] == (ps[i].0, Rewritten(ps[i].1, text).value)
    decreases |ps|
  {
    if |ps| > 0 {
      var step := RewriteEntry(ps[0].0, ps[0].1, dp, text);
      if step.Success? {
        RewriteParamsSpec(ps[1..], step.value.1, text);
        var rest := RewriteParams(ps[1..], step.value.1, text);
        if rest.Success? {
          var out := [(ps[0].0, step.value.0)] + rest.value.0;
          forall i | 0 <= i < |ps| ensures out[i] == (ps[i].0, Rewritten(ps[i].1, text).value) {
            if i > 0 { assert out[i] == rest.value.0[i - 1] && ps[1..][i - 1] == ps[i]; }
          }
        } else {
          assert FirstOverflow(ps, text) == Some(FirstOverflow(ps[1..], text).value + 1);
          assert ps[1..][FirstOverflow(ps[1..], text).value] == ps[FirstOverflow(ps, text).value];
        }
      }
    }
  }

  /** No entry of `ps` writes `k`: it is no key of them and no key's no-dash companion. */
  predicate Unwritten(ps: Dict, k: string)
  {
    forall i :: 0 <= i < |ps| ==> ps[i].0 != k && NoDashKey(ps[i].0) != k
  }

  /** A date parameter that no entry writes keeps its value. */
  lemma {:induction false} RewriteFrame(ps: Dict, dp: Dict, text: string -> Option<string>, k: string)
    requires RewriteParams(ps, dp, text).Success? && Unwritten(ps, k)
    ensures Lookup(RewriteParams(ps, dp, text).value.1, k) == Lookup(dp, k)
    decreases |ps|
  {
    if |ps| > 0 {
      var step := RewriteEntry(ps[0].0, ps[0].1, dp, text);
      assert Lookup(step.value.1, k) == Lookup(dp, k);
      assert forall i :: 0 <= i < |ps| - 1 ==> ps[1..][i] == ps[i + 1];
      RewriteFrame(ps[1..], step.value.1, text, k);
    }
  }

  /**
   * The date text of a `${...}` entry is a date parameter afterwards,
   * with its no-dash companion when it has a dash, unless a later entry
   * writes the same name.
   */
  lemma {:induction false} RewriteLands(ps: Dict, dp: Dict, text: string -> Option<string>, i: nat)
    requires RewriteParams(ps, dp, text).Success?
    requires i < |ps| && IsTemplate(ps[i].1)
    ensures Rewritten(ps[i].1, text).Some?
    ensures Unwritten(ps[i + 1..], ps[i].0) ==>
      Lookup(RewriteParams(ps, dp, text).value.1, ps[i].0) == Rewritten(ps[i].1, text)
    ensures var t := Rewritten(ps[i].1, text).value.s;
      '-' in t && Unwritten(ps[i + 1..], NoDashKey(ps[i].0)) ==>
      Lookup(RewriteParams(ps, dp, text).value.1, NoDashKey(ps[i].0)) == Some(Str(RemoveDashes(t)))
    decreases i
  {
    var step := RewriteEntry(ps[0].0, ps[0].1, dp, text);
    assert ps[1..] == ps[1..];
    if i == 0 {
      var t := Rewritten(ps[0].1, text).value.s;
      assert NoDashKey(ps[0].0) != ps[0].0 by { assert |NoDashKey(ps[0].0)| > |ps[0].0|; }
      assert Lookup(step.value.1, ps[0].0) == Some(Str(t));
      if Unwritten(ps[1..], ps[0].0) {
        RewriteFrame(ps[1..], step.value.1, text, ps[0].0);
      }
      if '-' in t && Unwritten(ps[1..], NoDashKey(ps[0].0)) {
        RewriteFrame(ps[1..], step.value.1, text, NoDashKey(ps[0].0));
      }
    } else {
      assert ps[1..][i - 1] == ps[i] && ps[1..][i - 1 + 1..] == ps[i + 1..];
      RewriteLands(ps[1..], step.value.1, text, i - 1);
    }
  }

  // ---------------------------------------------------------------------
  // Task parameters

  /**
   * One task parameter after the rewrite: a whole `${name}` value takes
   * the date parameter of that name, or stays when there is none; other
   * text holding "${" and "}" has each reference to a date parameter
   * replaced, as the `_resolve_*` methods do; everything else stays.
   */
  function TaskValue(v: Value, dp: Dict): Value
  {
    if !v.Str? then v
    else if IsTemplate(v) then
      match Lookup(dp, Body(v))
      case Some(x) => x
      case None => v
    else if Contains(v.s, "${") && Contains(v.s, "}") then Str(Substitute(v.s, dp))
    else v
  }

  /** Every date parameter is a string. */
  predicate StrValues(dp: Dict)
  {
    forall i :: 0 <= i < |dp| ==> dp[i].1.Str?
  }

  /** On a single reference the whole-value branch does what the general substitution does. */
  lemma TaskValueToken(name: string, dp: Dict)
    requires |name| >= 1 && '}' !in name && StrValues(dp)
    ensures TaskValue(Str(RefText(name)), dp) == Str(Substitute(RefText(name), dp))
  {
    var v := Str(RefText(name));
    assert IsTemplate(v);
    assert Body(v) == name;
    SubstituteToken(name, dp);
  }

  /**
   * Two references that fill the whole value, as in `${a}_${b}`, count as
   * one reference to the name "a}_${b": no date parameter has a name with
   * '}', so the value stays as written.
   */
  lemma TaskValueTwoRefs(a: string, b: string, dp: Dict)
    requires forall k :: k in Keys(dp) ==> '}' !in k
    ensures TaskValue(Str(RefText(a) + "_" + RefText(b)), dp) == Str(RefText(a) + "_" + RefText(b))
  {
    var v := Str(RefText(a) + "_" + RefText(b));
    assert v.s == "${" + (a + "}_${" + b) + "}";
    assert IsTemplate(v);
    assert Body(v) == a + "}_${" + b;
    assert '}' in Body(v) by { assert Body(v)[|a|] == '}'; }
  }

  /** Values other than strings, and strings without "${", are left alone. */
  lemma TaskValuePlain(v: Value, dp: Dict)
    requires !v.Str? || !Contains(v.s, "${")
    ensures TaskValue(v, dp) == v
  {
  }

  /**
   * Text that is not one whole reference gets each reference to a date
   * parameter replaced by its value, the others kept, when no '$' can
   * join a value to the text around it.
   */
  lemma TaskValueFills(s: string, dp: Dict)
    requires !IsTemplate(Str(s)) && Contains(s, "${") && Contains(s, "}")
    requires Clean(Scan(s)) && PlainValues(dp)
    ensures TaskValue(Str(s), dp) == Str(Fill(Scan(s), dp))
  {
    SubstituteFills(s, dp);
  }

  /** The parameters of one task, each rewritten. */
  function TaskParams(ps: Dict, dp: Dict): (r: Dict)
    ensures |r| == |ps| && forall i :: 0 <= i < |ps| ==> r[i] == (ps[i].0, TaskValue(ps[i].1, dp))
  {
    seq(|ps|, i requires 0 <= i < |ps| => (ps[i].0, TaskValue(ps[i].1, dp)))
  }

  /** The loop over `list(task_params.items())`, assigning each value in place. */
  method RewriteTaskParams(ps: Dict, dp: Dict) returns (out: Dict)
    ensures out == TaskParams(ps, dp)
  {
    out := ps;
    var i := 0;
    while i < |out|
      invariant 0 <= i <= |out| == |ps|
      invariant forall j :: 0 <= j < i ==> out[j] == (ps[j].0, TaskValue(ps[j].1, dp))
      invariant forall j :: i <= j < |out| ==> out[j] == ps[j]
    {
      out := out[i := (out[i].0, TaskValue(out[i].1, dp))];
      i := i + 1;
    }
  }

  /** Every task of the copied configuration with its parameters rewritten. */
  function RewriteTasks(ts: seq<TaskConfig>, dp: Dict): (r: seq<TaskConfig>)
    ensures |r| == |ts| && forall i :: 0 <= i < |ts| ==> r[i] == ts[i].(params := TaskParams(ts[i].params, dp))
  {
    seq(|ts|, i requires 0 <= i < |ts| => ts[i].(params := TaskParams(ts[i].params, dp)))
  }

  // ---------------------------------------------------------------------
  // Custom commands

  /**
   * `custom_command_tasks`, built from the original configuration: each
   * task with a custom command under `task_config.get("task_id")`, a later
   * task with the same id replacing an earlier one's command.
   */
  function CommandTable(ts: seq<TaskConfig>): map<Option<string>, string>
    decreases |ts|
  {
    if |ts| == 0 then map[]
    else
      var m := CommandTable(ts[..|ts| - 1]);
      var t := ts[|ts| - 1];
      if t.customCommand.Some? then m[Get(t.taskId) := t.customCommand.value] else m
  }

  /** Task `i` has a custom command and the id `id`. */
  predicate CommandOf(ts: seq<TaskConfig>, i: int, id: Option<string>)
  {
    0 <= i < |ts| && ts[i].customCommand.Some? && Get(ts[i].taskId) == id
  }

  /** The loop that fills `custom_command_tasks`. */
  method BuildCommandTable(ts: seq<TaskConfig>) returns (m: map<Option<string>, string>)
    ensures m == CommandTable(ts)
  {
    m := map[];
    var i := 0;
    while i < |ts|
      invariant 0 <= i <= |ts| && m == CommandTable(ts[..i])
    {
      assert ts[..i + 1][..i] == ts[..i];
      if ts[i].customCommand.Some? {
        m := m[Get(ts[i].taskId) := ts[i].customCommand.value];
      }
      i := i + 1;
    }
    assert ts[..i] == ts;
  }

  /**
   * An id is in the table exactly when some task with a custom command has
   * it, and its command is the last such task's.
   */
  lemma {:induction false} CommandTableSpec(ts: seq<TaskConfig>, id: Option<string>)
    ensures id in CommandTable(ts) <==> exists i :: CommandOf(ts, i, id)
    ensures forall i :: CommandOf(ts, i, id) && (forall j :: i < j < |ts| ==> !CommandOf(ts, j, id)) ==>
      CommandTable(ts)[id] == ts[i].customCommand.value
    decreases |ts|
  {
    if |ts| > 0 {
      var init := ts[..|ts| - 1];
      CommandTableSpec(init, id);
      assert forall i :: 0 <= i < |init| ==> init[i] == ts[i];
      assert forall i :: CommandOf(init, i, id) ==> CommandOf(ts, i, id);
      assert forall i :: CommandOf(ts, i, id) && i < |init| ==> CommandOf(init, i, id);
      var last := |ts| - 1;
      if !CommandOf(ts, last, id) {
        assert (exists i :: CommandOf(ts, i, id)) ==> exists i :: CommandOf(init, i, id);
        forall i | CommandOf(ts, i, id) && (forall j :: i < j < |ts| ==> !CommandOf(ts, j, id))
          ensures CommandTable(ts)[id] == ts[i].customCommand.value
        {
          assert CommandOf(init, i, id);
        }
      }
    }
  }

  /** The `{params.<name>}` placeholders of the date parameters, in their order, each with its text. */
  function Placeholders(dp: Dict): (table: seq<(string, string)>)
    ensures |table| == |dp|
    ensures forall i :: 0 <= i < |dp| ==> table[i] == ("{params." + dp[i].0 + "}", Show(dp[i].1))
    ensures forall i :: 0 <= i < |table| ==> |table[i].0| > 0 && table[i].0[0] == '{'
  {
    seq(|dp|, i requires 0 <= i < |dp| => ("{params." + dp[i].0 + "}", Show(dp[i].1)))
  }

  /**
   * The new custom command of a task: each placeholder replaced in the
   * order of the date parameters, then `{script_path}` by the task's
   * `script_path` ("" when it has none).
   */
  function CommandText(cmd: string, dp: Dict, scriptPath: Option<string>): string
  {
    var c := ReplaceChain(cmd, Placeholders(dp));
    if Contains(c, "{script_path}") then ReplaceAll(c, "{script_path}", if scriptPath.Some? then scriptPath.value else "")
    else c
  }

  /** The `in` test before the script path is replaced changes nothing: `replace` of an absent text is the identity. */
  lemma CommandTextReplaces(cmd: string, dp: Dict, scriptPath: Option<string>)
    ensures CommandText(cmd, dp, scriptPath) ==
      ReplaceAll(ReplaceChain(cmd, Placeholders(dp)), "{script_path}", if scriptPath.Some? then scriptPath.value else "")
  {
    var c := ReplaceChain(cmd, Placeholders(dp));
    if !Contains(c, "{script_path}") {
      ReplaceAbsent(c, "{script_path}", if scriptPath.Some? then scriptPath.value else "");
    }
  }

  /** A command without '{' has no placeholder and comes back as it was. */
  lemma CommandTextPlain(cmd: string, dp: Dict, scriptPath: Option<string>)
    requires '{' !in cmd
    ensures CommandText(cmd, dp, scriptPath) == cmd
  {
    var table := Placeholders(dp);
    forall i | 0 <= i < |table| ensures !Contains(cmd, table[i].0) {
      AbsentHead(cmd, table[i].0);
    }
    ReplaceChainAbsent(cmd, table);
    AbsentHead(cmd, "{script_path}");
  }

  /** A text whose first character does not occur in `s` does not occur in `s`. */
  lemma AbsentHead(s: string, p: string)
    requires |p| > 0 && p[0] !in s
    ensures !Contains(s, p)
  {
  }

  /** Task `i` is the first of its id: the one the inner loop with its `break` finds. */
  predicate FirstWithId(ts: seq<TaskConfig>, i: int)
    requires 0 <= i < |ts|
  {
    forall j :: 0 <= j < i ==> Get(ts[j].taskId) != Get(ts[i].taskId)
  }

  /**
   * The custom-command loop: for each table entry the first copied task
   * with that id gets the rewritten command.  Different entries reach
   * different tasks, so their order does not matter.
   */
  function ApplyCommands(ts: seq<TaskConfig>, table: map<Option<string>, string>, dp: Dict): (r: seq<TaskConfig>)
    ensures |r| == |ts|
    ensures forall i :: 0 <= i < |ts| ==>
              r[i] == if Get(ts[i].taskId) in table && FirstWithId(ts, i)
                      then ts[i].(customCommand := Some(CommandText(table[Get(ts[i].taskId)], dp, ts[i].scriptPath)))
                      else ts[i]
  {
    seq(|ts|, i requires 0 <= i < |ts| =>
      if Get(ts[i].taskId) in table && FirstWithId(ts, i)
      then ts[i].(customCommand := Some(CommandText(table[Get(ts[i].taskId)], dp, ts[i].scriptPath)))
      else ts[i])
  }

  /**
   * With distinct ids, every task that had a custom command gets the
   * command of the table rewritten for the point, and a task without one
   * keeps none.
   */
  lemma CommandsApplied(ts: seq<TaskConfig>, dp: Dict, i: nat)
    requires i < |ts| && forall j :: 0 <= j < |ts| && j != i ==> Get(ts[j].taskId) != Get(ts[i].taskId)
    ensures ts[i].customCommand.Some? ==>
      ApplyCommands(ts, CommandTable(ts), dp)[i].customCommand == Some(CommandText(ts[i].customCommand.value, dp, ts[i].scriptPath))
    ensures ts[i].customCommand.None? ==> ApplyCommands(ts, CommandTable(ts), dp)[i] == ts[i]
  {
    CommandTableSpec(ts, Get(ts[i].taskId));
  }

  // ---------------------------------------------------------------------
  // One date point

  /** The workflow configuration file: a JSON object, with a missing `params` empty. */
  datatype WorkflowFile = WorkflowFile(
    name: Option<string>, params: Dict, tasks: seq<TaskConfig>, dependencies: seq<DepConfig>, alert: Dict)

  /** What the date loop needs of the plan: the date names and formats, the custom parameters, the scope. */
  datatype Plan = Plan(
    names: seq<string>, formats: map<string, Value>, custom: Store, file: WorkflowFile,
    dryRun: bool, only: Option<seq<string>>, startFrom: Option<string>)

  /** The workflow built for one point and the parameters `set_params` gives it. */
  datatype Job = Job(config: WorkflowConfig, params: Store)

  /**
   * Everything before `workflow.execute` for one point: parse the point,
   * build its date parameters, rewrite the workflow parameters, the task
   * parameters and the custom commands of a copy of the configuration,
   * then load the workflow from it.  None of the exceptions on the way is
   * caught.
   */
  function Prepare(plan: Plan, point: string): Result<Job, Stop>
  {
    match ParseIso(point)
    case None => Failure(BadDatePoint(point))
    case Some(day) =>
      var dp := Bundle(plan.names, plan.formats, point, day);
      match RewriteParams(plan.file.params, dp, DayTexts(day))
      case Failure(e) => Failure(e)
      case Success(rw) =>
        var tasks := ApplyCommands(RewriteTasks(plan.file.tasks, rw.1), CommandTable(plan.file.tasks), rw.1);
        var data := ConfigObject(plan.file.name, StoreOf(rw.0), tasks, plan.file.dependencies, plan.file.alert);
        match ConfigOf(data)
        case Failure(e) => Failure(BuildFailed(e))
        case Success(cfg) =>
          match BuildError(cfg)
          case Some(e) => Failure(BuildFailed(e))
          case None => Success(Job(cfg, DayParams(rw.1, plan.custom)))
  }

  /**
   * A prepared point runs with the custom parameters over its date
   * parameters: each custom value as given, and each date name that is
   * not custom and that no workflow parameter overwrites, formatted for
   * the point.  Its workflow has the rewritten parameters of the file and
   * its dependencies and alert settings.
   */
  lemma PrepareSpec(plan: Plan, point: string)
    ensures ParseIso(point).None? ==> Prepare(plan, point) == Failure(BadDatePoint(point))
    ensures Prepare(plan, point).Success? ==>
      var job := Prepare(plan, point).value;
      var day := ParseIso(point).value;
      && ParseIso(point).Some?
      && (forall k :: k in plan.custom ==> k in job.params && job.params[k] == plan.custom[k])
      && (forall n :: n in plan.names && n !in plan.custom && Unwritten(plan.file.params, n) ==>
            n in job.params && job.params[n] == Str(Formatted(plan.formats, n, point, day)))
      && job.config.dependencies == plan.file.dependencies && job.config.alert == plan.file.alert
      && (forall k :: k in job.config.params <==> k in Keys(plan.file.params))
      && Some(job.config.name) == plan.file.name
  {
    match ParseIso(point)
    case None =>
    case Some(day) =>
      var dp := Bundle(plan.names, plan.formats, point, day);
      BundleSpec(plan.names, plan.formats, point, day);
      var rw := RewriteParams(plan.file.params, dp, DayTexts(day));
      if rw.Success? {
        RewriteParamsSpec(plan.file.params, dp, DayTexts(day));
        forall n | n in plan.names && Unwritten(plan.file.params, n)
          ensures Lookup(rw.value.1, n) == Some(Str(Formatted(plan.formats, n, point, day)))
        {
          RewriteFrame(plan.file.params, dp, DayTexts(day), n);
        }
        SameKeys(rw.value.0, plan.file.params);
      }
  }

  /** Two dictionaries with the same keys at every index have the same keys. */
  lemma SameKeys(a: Dict, b: Dict)
    requires |a| == |b| && forall i :: 0 <= i < |a| ==> a[i].0 == b[i].0
    ensures forall k :: k in Keys(a) <==> k in Keys(b)
  {
    assert Keys(a) == Keys(b);
  }

  // ---------------------------------------------------------------------
  // Running the points

  /**
   * `workflow.execute(only_tasks=..., start_from=...)` on a prepared
   * workflow: its results by task id in their order, or None where it
   * raised.
   */
  type RunWorkflow = (WorkflowConfig, Store, Option<seq<string>>, Option<string>) -> Option<seq<(string, TaskResult)>>

  predicate HasStatus(t: TaskResult) { "status" in t.fields }

  predicate Succeeded(t: TaskResult) { "status" in t.fields && t.fields["status"] == Str("success") }

  /**
   * `all(result["status"] == "success" for result in results.values())`,
   * or None where it reaches a result without a status first.
   */
  function AllSucceeded(rs: seq<(string, TaskResult)>): (r: Option<bool>)
    ensures r == Some(true) <==> forall j :: 0 <= j < |rs| ==> Succeeded(rs[j].1)
    ensures r.None? ==> exists j :: 0 <= j < |rs| && !HasStatus(rs[j].1)
    ensures (forall j :: 0 <= j < |rs| ==> HasStatus(rs[j].1)) ==> r.Some?
    decreases |rs|
  {
    if |rs| == 0 then Some(true)
    else
      var rest := AllSucceeded(rs[1..]);
      assert forall j :: 0 <= j < |rs| - 1 ==> rs[1..][j] == rs[j + 1];
      if !HasStatus(rs[0].1) then None
      else if rs[0].1.fields["status"] != Str("success") then Some(false)
      else rest
  }

  /**
   * Whether `result["params"].items()` fails: a failed result whose
   * `"params"` is a text, a number, a boolean or None has no `items`.
   * A value kept only as `Other` is taken to be a dictionary.
   */
  predicate ParamsNotMapping(t: TaskResult)
  {
    "params" in t.fields && !t.fields["params"].Other?
  }

  /**
   * The summary loop over the results reads every status and raises on a
   * missing one, and lists the parameters of every failed result, which
   * raises where they are not a dictionary.
   */
  predicate SummaryRaises(rs: seq<(string, TaskResult)>)
  {
    exists j :: 0 <= j < |rs| &&
      (!HasStatus(rs[j].1) || (!Succeeded(rs[j].1) && ParamsNotMapping(rs[j].1)))
  }

  /**
   * What one executed point adds to `failed_date_points`: nothing when
   * every task succeeded; the point once when `execute` or `all` raised
   * or some task failed; twice when some task failed and the failure
   * summary then raised, on a result without a status or on a failed
   * result whose parameters are not a dictionary, once more in the
   * `except`.
   */
  function Entries(point: string, run: Option<seq<(string, TaskResult)>>): seq<string>
  {
    match run
    case None => [point]
    case Some(rs) =>
      match AllSucceeded(rs)
      case None => [point]
      case Some(ok) =>
        if ok then []
        else if SummaryRaises(rs) then [point, point]
        else [point]
  }

  /**
   * A point is listed exactly when its run did not succeed everywhere;
   * it is listed at most twice, and at most once when every result has a
   * status and no failed result carries parameters other than a
   * dictionary; a second listing needs such a result.
   */
  lemma EntriesSpec(point: string, run: Option<seq<(string, TaskResult)>>)
    ensures Entries(point, run) == [] <==>
      run.Some? && forall j :: 0 <= j < |run.value| ==> Succeeded(run.value[j].1)
    ensures forall x :: x in Entries(point, run) ==> x == point
    ensures |Entries(point, run)| <= 2
    ensures run.Some? && !SummaryRaises(run.value) ==>
      |Entries(point, run)| == if forall j :: 0 <= j < |run.value| ==> Succeeded(run.value[j].1) then 0 else 1
    ensures |Entries(point, run)| == 2 <==>
      run.Some? && SummaryRaises(run.value) && AllSucceeded(run.value) == Some(false)
  {
  }

  /**
   * The loop's view of a backfill: how a point is prepared (`Prepare` of
   * the plan, see `PlanRunner`), whether this is a dry run, the scope
   * passed to `execute`, and the run itself.
   */
  datatype Runner = Runner(
    prepare: string -> Result<Job, Stop>, dryRun: bool,
    only: Option<seq<string>>, startFrom: Option<string>, run: RunWorkflow)

  function PlanRunner(plan: Plan, run: RunWorkflow): (r: Runner)
    ensures forall point :: r.prepare(point) == Prepare(plan, point)
    ensures r.dryRun == plan.dryRun && r.only == plan.only && r.startFrom == plan.startFrom && r.run == run
  {
    Runner(point => Prepare(plan, point), plan.dryRun, plan.only, plan.startFrom, run)
  }

  /** The results of executing a prepared point. */
  function Results(rn: Runner, job: Job): Option<seq<(string, TaskResult)>>
  {
    rn.run(job.config, job.params, rn.only, rn.startFrom)
  }

  /** What one point contributes: its entries, none on a dry run, or the exception that ends the loop. */
  function PointFailures(rn: Runner, point: string): Result<seq<string>, Stop>
  {
    match rn.prepare(point)
    case Failure(e) => Failure(e)
    case Success(job) =>
      if rn.dryRun then Success([])
      else Success(Entries(point, Results(rn, job)))
  }

  /** `failed_date_points` after the loop over `points`, or the exception that ended it. */
  function FailedPoints(rn: Runner, points: seq<string>): Result<seq<string>, Stop>
    decreases |points|
  {
    if |points| == 0 then Success([])
    else
      match FailedPoints(rn, points[..|points| - 1])
      case Failure(e) => Failure(e)
      case Success(failed) =>
        match PointFailures(rn, points[|points| - 1])
        case Failure(e) => Failure(e)
        case Success(es) => Success(failed + es)
  }

  /** Once a point raises, the loop's outcome is that exception. */
  lemma {:induction false} FailedPointsStop(rn: Runner, points: seq<string>, i: nat)
    requires i < |points| && FailedPoints(rn, points[..i + 1]).Failure?
    ensures FailedPoints(rn, points) == FailedPoints(rn, points[..i + 1])
    decreases |points|
  {
    if i + 1 < |points| {
      var init := points[..|points| - 1];
      assert init[..i + 1] == points[..i + 1];
      FailedPointsStop(rn, init, i);
    } else {
      assert points[..i + 1] == points;
    }
  }

  /**
   * The date loop of `run_backfill`: each point prepared and, unless on a
   * dry run, executed; a point whose run fails or raises is appended to
   * the failed points and counted, and the loop goes on.
   */
  method RunDatePoints(rn: Runner, points: seq<string>)
    returns (r: Result<seq<string>, Stop>, failureCount: nat)
    ensures r == FailedPoints(rn, points)
    ensures r.Success? ==> failureCount == |r.value|
  {
    var failed: seq<string> := [];
    failureCount := 0;
    var i := 0;
    while i < |points|
      invariant 0 <= i <= |points|
      invariant FailedPoints(rn, points[..i]) == Success(failed)
      invariant failureCount == |failed|
    {
      var point := points[i];
      assert points[..i + 1][..i] == points[..i] && points[..i + 1][i] == point;
      ghost var before := failed;
      var job := rn.prepare(point);
      if job.Failure? {
        FailedPointsStop(rn, points, i);
        return Failure(job.error), failureCount;
      }
      if !rn.dryRun {
        var results := Results(rn, job.value);
        if results.None? {
          failureCount := failureCount + 1;
          failed := failed + [point];
        } else {
          var ok := AllSucceeded(results.value);
          if ok.None? {
            failureCount := failureCount + 1;
            failed := failed + [point];
          } else if !ok.value {
            failureCount := failureCount + 1;
            failed := failed + [point];
            if SummaryRaises(results.value) {
              failureCount := failureCount + 1;
              failed := failed + [point];
            }
          }
        }
      }
      assert failed == before + PointFailures(rn, point).value;
      i := i + 1;
    }
    assert points[..i] == points;
    r := Success(failed);
  }

  /** The point at `i` was prepared, executed, and every task of it succeeded. */
  predicate PointSucceeded(rn: Runner, point: string)
  {
    && rn.prepare(point).Success?
    && var job := rn.prepare(point).value;
       var rs := Results(rn, job);
       rs.Some? && forall j :: 0 <= j < |rs.value| ==> Succeeded(rs.value[j].1)
  }

  /**
   * The loop raises exactly when preparing some point raises, and then
   * with the exception of the first such point.
   */
  lemma {:induction false} FailedPointsRaise(rn: Runner, points: seq<string>)
    ensures FailedPoints(rn, points).Failure? <==>
      exists i :: 0 <= i < |points| && rn.prepare(points[i]).Failure?
    ensures FailedPoints(rn, points).Failure? ==>
      exists i :: 0 <= i < |points| && rn.prepare(points[i]).Failure?
        && FailedPoints(rn, points).error == rn.prepare(points[i]).error
        && forall j :: 0 <= j < i ==> rn.prepare(points[j]).Success?
    decreases |points|
  {
    if |points| > 0 {
      var n := |points| - 1;
      var init := points[..n];
      FailedPointsRaise(rn, init);
      assert forall i :: 0 <= i < n ==> init[i] == points[i];
      EntriesOfPoint(rn, points[n]);
      if FailedPoints(rn, init).Failure? {
        var i :| 0 <= i < n && rn.prepare(init[i]).Failure?
          && FailedPoints(rn, init).error == rn.prepare(init[i]).error
          && forall j :: 0 <= j < i ==> rn.prepare(init[j]).Success?;
        assert rn.prepare(points[i]).Failure?;
      } else if rn.prepare(points[n]).Failure? {
        assert forall j :: 0 <= j < n ==> rn.prepare(points[j]).Success?;
      } else {
        forall i | 0 <= i < |points| ensures rn.prepare(points[i]).Success? {
          if i < n {
            assert rn.prepare(init[i]).Success?;
          }
        }
      }
    }
  }

  /**
   * When the loop does not raise, every failed point is one of the
   * points, and none is listed exactly on a dry run or when every point
   * succeeded.
   */
  lemma {:induction false} FailedPointsListed(rn: Runner, points: seq<string>)
    requires FailedPoints(rn, points).Success?
    ensures forall x :: x in FailedPoints(rn, points).value ==> x in points
    ensures FailedPoints(rn, points).value == [] <==>
      rn.dryRun || forall i :: 0 <= i < |points| ==> PointSucceeded(rn, points[i])
    decreases |points|
  {
    if |points| > 0 {
      var n := |points| - 1;
      var init := points[..n];
      assert FailedPoints(rn, init).Success?;
      FailedPointsListed(rn, init);
      assert forall i :: 0 <= i < n ==> init[i] == points[i];
      assert forall x :: x in init ==> x in points;
      EntriesOfPoint(rn, points[n]);
      var failed := FailedPoints(rn, init).value;
      var es := PointFailures(rn, points[n]).value;
      assert FailedPoints(rn, points).value == failed + es;
      if !rn.dryRun && (forall i :: 0 <= i < n ==> PointSucceeded(rn, init[i])) && PointSucceeded(rn, points[n]) {
        forall i | 0 <= i < |points| ensures PointSucceeded(rn, points[i]) {
          if i < n {
            assert PointSucceeded(rn, init[i]);
          }
        }
      }
    }
  }

  /** What one point contributes, in the terms of `FailedPointsRaise` and `FailedPointsListed`. */
  lemma EntriesOfPoint(rn: Runner, point: string)
    ensures PointFailures(rn, point).Failure? <==> rn.prepare(point).Failure?
    ensures PointFailures(rn, point).Failure? ==> PointFailures(rn, point).error == rn.prepare(point).error
    ensures PointFailures(rn, point).Success? ==>
      && (forall x :: x in PointFailures(rn, point).value ==> x == point)
      && (PointFailures(rn, point).value == [] <==> rn.dryRun || PointSucceeded(rn, point))
  {
    if rn.prepare(point).Success? && !rn.dryRun {
      var job := rn.prepare(point).value;
      EntriesSpec(point, Results(rn, job));
    }
  }

  // ---------------------------------------------------------------------
  // run_backfill

  /** The stripped pieces of a comma-separated id list. */
  function StripAll(parts: seq<string>): (r: seq<string>)
    ensures |r| == |parts| && forall i :: 0 <= i < |parts| ==> r[i] == Strip(parts[i])
  {
    seq(|parts|, i requires 0 <= i < |parts| => Strip(parts[i]))
  }

  /**
   * `task_ids` and `start_from`: a non-empty `job_ids` gives its stripped
   * comma-separated ids and drops `start_from`; otherwise every task, from
   * `start_from` when given.
   */
  function Scope(jobIds: Option<string>, startFrom: Option<string>): (Option<seq<string>>, Option<string>)
  {
    if jobIds.Some? && jobIds.value != "" then (Some(StripAll(Split(jobIds.value, ','))), None)
    else (None, startFrom)
  }

  /** Job ids win over a starting task, and there is one id per comma-separated piece. */
  lemma ScopeSpec(jobIds: Option<string>, startFrom: Option<string>)
    ensures var (only, start) := Scope(jobIds, startFrom);
      && (only.Some? <==> jobIds.Some? && jobIds.value != "")
      && (only.Some? ==>
            && start.None? && |only.value| == |Split(jobIds.value, ',')|
            && forall i :: 0 <= i < |only.value| ==> only.value[i] == Strip(Split(jobIds.value, ',')[i]))
      && (only.None? ==> start == startFrom)
  {
  }

  /** `input(...).strip().lower() == 'y'`; None is an `input` that raised, which declines. */
  predicate Confirmed(answer: Option<string>)
  {
    answer.Some? && Lower(Strip(answer.value)) == "y"
  }

  /**
   * `run_backfill` after the files are read: its boolean result, or the
   * exception that leaves it.  A refusal, a declined confirmation or a
   * failed point gives False; a dry run gives True.
   */
  function BackfillResult(cfg: BackfillConfig, file: WorkflowFile, jobIds: Option<string>, startFrom: Option<string>,
                    autoConfirm: bool, answer: Option<string>, run: RunWorkflow): Result<bool, Stop>
  {
    match DatePoints(cfg)
    case Failure(Refused(_)) => Success(false)
    case Failure(Stopped(e)) => Failure(e)
    case Success(points) =>
      if !cfg.dryRun && !autoConfirm && !Confirmed(answer) then Success(false)
      else
        var scope := Scope(jobIds, startFrom);
        var plan := Plan(DateNames(cfg), cfg.dateParamFormats, cfg.params, file, cfg.dryRun, scope.0, scope.1);
        match FailedPoints(PlanRunner(plan, run), points)
        case Failure(e) => Failure(e)
        case Success(failed) => Success(cfg.dryRun || |failed| == 0)
  }

  /** `run_backfill`, with the user's answer and the workflow runs as parameters. */
  method RunBackfill(cfg: BackfillConfig, file: WorkflowFile, jobIds: Option<string>, startFrom: Option<string>,
                     autoConfirm: bool, answer: Option<string>, run: RunWorkflow) returns (r: Result<bool, Stop>)
    ensures r == BackfillResult(cfg, file, jobIds, startFrom, autoConfirm, answer, run)
  {
    var dates := SelectDates(cfg);
    if dates.Failure? {
      if dates.error.Refused? {
        return Success(false);
      }
      return Failure(dates.error.stop);
    }
    var scope := Scope(jobIds, startFrom);
    if !cfg.dryRun && !autoConfirm && !Confirmed(answer) {
      return Success(false);
    }
    var plan := Plan(DateNames(cfg), cfg.dateParamFormats, cfg.params, file, cfg.dryRun, scope.0, scope.1);
    var failed, failureCount := RunDatePoints(PlanRunner(plan, run), dates.value);
    if failed.Failure? {
      return Failure(failed.error);
    }
    if !cfg.dryRun {
      return Success(failureCount == 0);
    }
    return Success(true);
  }

  /**
   * The result of `run_backfill`: False on a refusal or a declined
   * confirmation; True on a dry run that does not raise; otherwise True
   * exactly when every date point's tasks all succeeded.
   */
  lemma BackfillSpec(cfg: BackfillConfig, file: WorkflowFile, jobIds: Option<string>, startFrom: Option<string>,
                     autoConfirm: bool, answer: Option<string>, run: RunWorkflow)
    ensures DatePoints(cfg).Failure? && DatePoints(cfg).error.Refused? ==>
      BackfillResult(cfg, file, jobIds, startFrom, autoConfirm, answer, run) == Success(false)
    ensures DatePoints(cfg).Success? && !cfg.dryRun && !autoConfirm && !Confirmed(answer) ==>
      BackfillResult(cfg, file, jobIds, startFrom, autoConfirm, answer, run) == Success(false)
    ensures
      (&& DatePoints(cfg).Success? && cfg.dryRun
       && BackfillResult(cfg, file, jobIds, startFrom, autoConfirm, answer, run).Success?) ==>
      BackfillResult(cfg, file, jobIds, startFrom, autoConfirm, answer, run) == Success(true)
    ensures
      (&& DatePoints(cfg).Success? && !cfg.dryRun && (autoConfirm || Confirmed(answer))
       && BackfillResult(cfg, file, jobIds, startFrom, autoConfirm, answer, run).Success?) ==>
      var scope := Scope(jobIds, startFrom);
      var plan := Plan(DateNames(cfg), cfg.dateParamFormats, cfg.params, file, cfg.dryRun, scope.0, scope.1);
      (BackfillResult(cfg, file, jobIds, startFrom, autoConfirm, answer, run).value <==>
         forall i :: 0 <= i < |DatePoints(cfg).value| ==> PointSucceeded(PlanRunner(plan, run), DatePoints(cfg).value[i]))
  {
    if DatePoints(cfg).Success? {
      var scope := Scope(jobIds, startFrom);
      var plan := Plan(DateNames(cfg), cfg.dateParamFormats, cfg.params, file, cfg.dryRun, scope.0, scope.1);
      var rn := PlanRunner(plan, run);
      if FailedPoints(rn, DatePoints(cfg).value).Success? {
        FailedPointsListed(rn, DatePoints(cfg).value);
      }
    }
  }
}
