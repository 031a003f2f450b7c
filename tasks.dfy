/**
 * The task classes of `scheduler/task.py`: the common task state (id,
 * type, an insertion-ordered parameter dictionary), the per-class
 * settings with their constructor checks, the task-local `${name}`
 * substitution of the `_resolve_*` methods, the keyword arguments of a
 * Python callable, and the argument vectors every `execute` builds.
 * Running processes, temporary files and path resolution are not part of
 * this model: paths arrive already resolved.
 */
module Tasks {
  import opened Outcomes
  import opened Text
  import opened Calendar
  import opened Params

  // ---------------------------------------------------------------------
  // Insertion-ordered dictionaries

  /** A Python dict: its entries in insertion order. */
  type Dict = seq<(string, Value)>

  function Keys(d: Dict): (ks: seq<string>)
    ensures |ks| == |d| && forall i :: 0 <= i < |d| ==> ks[i] == d[i].0
  {
    if |d| == 0 then [] else [d[0].0] + Keys(d[1..])
  }

  predicate DistinctKeys(d: Dict)
  {
    forall i, j :: 0 <= i < j < |d| ==> d[i].0 != d[j].0
  }

  /** `d.get(k)`. */
  function Lookup(d: Dict, k: string): (r: Option<Value>)
    ensures r.Some? <==> k in Keys(d)
    ensures r.Some? ==> exists i :: 0 <= i < |d| && d[i] == (k, r.value)
  {
    if |d| == 0 then None
    else if d[0].0 == k then Some(d[0].1)
    else
      var r := Lookup(d[1..], k);
      assert r.Some? ==> exists i :: 0 <= i < |d| - 1 && d[1..][i] == (k, r.value);
      assert Keys(d) == [d[0].0] + Keys(d[1..]);
      r
  }

  /** With distinct keys, the entry at `i` is the one `Lookup` finds. */
  lemma {:induction false} LookupAt(d: Dict, i: nat)
    requires DistinctKeys(d) && i < |d|
    ensures Lookup(d, d[i].0) == Some(d[i].1)
    decreases i
  {
    if i > 0 {
      assert d[1..][i - 1] == d[i];
      LookupAt(d[1..], i - 1);
    }
  }

  /** `d[k] = v`: an existing key keeps its position, a new key goes last. */
  function Put(d: Dict, k: string, v: Value): (r: Dict)
    ensures Lookup(r, k) == Some(v)
    ensures forall k' :: k' != k ==> Lookup(r, k') == Lookup(d, k')
    ensures Keys(r) == if k in Keys(d) then Keys(d) else Keys(d) + [k]
  {
    if |d| == 0 then [(k, v)]
    else if d[0].0 == k then
      var r := [(k, v)] + d[1..];
      assert r[1..] == d[1..];
      r
    else
      var tail := Put(d[1..], k, v);
      var r := [d[0]] + tail;
      assert r[1..] == tail;
      PutKeysStep(d, k, tail);
      r
  }

  /** The key bookkeeping of one recursive step of `Put`. */
  lemma PutKeysStep(d: Dict, k: string, tail: Dict)
    requires |d| > 0 && d[0].0 != k
    requires Keys(tail) == if k in Keys(d[1..]) then Keys(d[1..]) else Keys(d[1..]) + [k]
    ensures Keys([d[0]] + tail) == if k in Keys(d) then Keys(d) else Keys(d) + [k]
  {
    assert ([d[0]] + tail)[1..] == tail;
    assert Keys([d[0]] + tail) == [d[0].0] + Keys(tail);
    assert Keys(d) == [d[0].0] + Keys(d[1..]);
    assert k in Keys(d) <==> k in Keys(d[1..]);
  }

  lemma {:induction false} PutKeepsDistinct(d: Dict, k: string, v: Value)
    requires DistinctKeys(d)
    ensures DistinctKeys(Put(d, k, v))
  {
    var r, kd := Put(d, k, v), Keys(d);
    var ks := Keys(r);
    forall a, b | 0 <= a < b < |r| ensures r[a].0 != r[b].0 {
      assert r[a].0 == ks[a] && r[b].0 == ks[b];
      if b < |d| {
        assert ks[a] == kd[a] == d[a].0 && ks[b] == kd[b] == d[b].0;
      } else {
        assert k !in kd && ks == kd + [k] && ks[b] == k && ks[a] == kd[a];
      }
    }
  }

  /** On an existing key, `Put` replaces that entry in place. */
  lemma {:induction false} PutAt(d: Dict, i: nat, v: Value)
    requires DistinctKeys(d) && i < |d|
    ensures Put(d, d[i].0, v) == d[i := (d[i].0, v)]
    decreases i
  {
    if i == 0 {
      assert Put(d, d[0].0, v) == [(d[0].0, v)] + d[1..];
    } else {
      assert d[0].0 != d[i].0;
      DistinctKeysTail(d);
      assert d[1..][i - 1] == d[i];
      PutAt(d[1..], i - 1, v);
      PutAtStep(d, i, v);
    }
  }

  lemma PutAtStep(d: Dict, i: nat, v: Value)
    requires 0 < i < |d| && d[0].0 != d[i].0
    requires Put(d[1..], d[i].0, v) == d[1..][i - 1 := (d[i].0, v)]
    ensures Put(d, d[i].0, v) == d[i := (d[i].0, v)]
  {
    assert Put(d, d[i].0, v) == [d[0]] + Put(d[1..], d[i].0, v);
    ConsUpdate(d, i, (d[i].0, v));
  }

  lemma DistinctKeysTail(d: Dict)
    requires DistinctKeys(d) && |d| > 0
    ensures DistinctKeys(d[1..])
  {
    forall a, b | 0 <= a < b < |d| - 1 ensures d[1..][a].0 != d[1..][b].0 {
      assert d[1..][a] == d[a + 1] && d[1..][b] == d[b + 1];
    }
  }

  lemma ConsUpdate(d: Dict, i: nat, x: (string, Value))
    requires 0 < i < |d|
    ensures [d[0]] + d[1..][i - 1 := x] == d[i := x]
  {
    var lhs, rhs := [d[0]] + d[1..][i - 1 := x], d[i := x];
    forall m | 0 <= m < |rhs| ensures lhs[m] == rhs[m] {
      if m > 0 {
        assert lhs[m] == d[1..][i - 1 := x][m - 1];
      }
    }
  }

  // ---------------------------------------------------------------------
  // Task state, results and settings

  /** The result a task returns: a dictionary such as `{"exit_code": 0, ...}`. */
  datatype TaskResult = TaskResult(fields: map<string, Value>)

  /** An optional text argument, true in Python when present and non-empty. */
  predicate Given(s: Option<string>) { s.Some? && s.value != "" }

  /**
   * The settings of each task class.  `initScripts` is `init_script` made a
   * list (a single path becomes a one-element list, an absent or empty one
   * the empty list); `callable` says whether a Python callable was passed.
   */
  datatype TaskSpec =
    | Shell(command: string, workingDir: Option<string>)
    | Python(scriptPath: Option<string>, callable: bool, scriptContent: Option<string>,
             customCommand: Option<string>, workingDir: Option<string>)
    | PySpark(scriptPath: Option<string>, scriptContent: Option<string>, workingDir: Option<string>)
    | SparkSql(sql: Option<string>, sqlFile: Option<string>, workingDir: Option<string>,
               initScripts: seq<string>)
    | HiveSql(sql: Option<string>, sqlFile: Option<string>, workingDir: Option<string>,
              initScripts: seq<string>)

  /** The `task_type` each class passes to the base constructor. */
  function TypeName(spec: TaskSpec): (name: string)
    ensures name in ["shell", "python", "pyspark", "spark-sql", "hive"]
  {
    match spec
    case Shell(_, _) => "shell"
    case Python(_, _, _, _, _) => "python"
    case PySpark(_, _, _) => "pyspark"
    case SparkSql(_, _, _, _) => "spark-sql"
    case HiveSql(_, _, _, _) => "hive"
  }

  /** The class names are told apart by their `task_type`. */
  lemma TypeNameInjective(a: TaskSpec, b: TaskSpec)
    ensures TypeName(a) == TypeName(b) <==>
      (a.Shell? && b.Shell?) || (a.Python? && b.Python?) || (a.PySpark? && b.PySpark?)
      || (a.SparkSql? && b.SparkSql?) || (a.HiveSql? && b.HiveSql?)
  {
  }

  /**
   * The `ValueError` a constructor raises, if any: a Python task needs a
   * script path, a callable or script content; a PySpark task a script
   * path or content; the SQL tasks SQL text or a SQL file.
   */
  function ConstructionError(spec: TaskSpec): (r: Option<string>)
  {
    match spec
    case Shell(_, _) => None
    case Python(path, callable, content, _, _) =>
      if !(Given(path) || callable || Given(content))
      then Some("必须提供script_path、python_callable或script_content中的至少一个") else None
    case PySpark(path, content, _) =>
      if !Given(path) && !Given(content) then Some("必须提供script_path或script_content") else None
    case SparkSql(sql, file, _, _) =>
      if !Given(sql) && !Given(file) then Some("必须提供sql或sql_file") else None
    case HiveSql(sql, file, _, _) =>
      if !Given(sql) && !Given(file) then Some("必须提供sql或sql_file") else None
  }

  /** What a task can run from: the thing each constructor insists on. */
  predicate HasSource(spec: TaskSpec)
  {
    match spec
    case Shell(_, _) => true
    case Python(path, callable, content, _, _) => Given(path) || callable || Given(content)
    case PySpark(path, content, _) => Given(path) || Given(content)
    case SparkSql(sql, file, _, _) => Given(sql) || Given(file)
    case HiveSql(sql, file, _, _) => Given(sql) || Given(file)
  }

  /** A constructor raises exactly when the task would have nothing to run. */
  lemma ConstructionErrorSpec(spec: TaskSpec)
    ensures ConstructionError(spec).None? <==> HasSource(spec)
  {
  }

  /** How `PythonTask.execute` runs: the first of these that is set wins. */
  datatype PythonMode = CallCallable | RunCustomCommand | RunScript | RunContent | RunNothing

  function PythonModeOf(spec: TaskSpec): (m: PythonMode)
    requires spec.Python?
    ensures m == CallCallable <==> spec.callable
    ensures m == RunCustomCommand <==> !spec.callable && Given(spec.customCommand)
    ensures m == RunScript <==> !spec.callable && !Given(spec.customCommand) && Given(spec.scriptPath)
    ensures m == RunNothing ==> !HasSource(spec)
  {
    if spec.callable then CallCallable
    else if Given(spec.customCommand) then RunCustomCommand
    else if Given(spec.scriptPath) then RunScript
    else if Given(spec.scriptContent) then RunContent
    else RunNothing
  }

  // ---------------------------------------------------------------------
  // Task-local substitution: the `_resolve_*` methods

  /** The names of the references of a scanned text, in order. */
  function RefNames(ps: seq<Piece>): (names: seq<string>)
    ensures forall j :: 0 <= j < |ps| && ps[j].Ref? ==> ps[j].name in names
    ensures forall i :: 0 <= i < |names| ==> Ref(names[i]) in ps
  {
    if |ps| == 0 then []
    else
      var rest := RefNames(ps[1..]);
      assert forall j :: 1 <= j < |ps| ==> ps[j] == ps[1..][j - 1];
      assert forall p :: p in ps[1..] ==> p in ps;
      if ps[0].Ref? then [ps[0].name] + rest else rest
  }

  /**
   * The loop of the `_resolve_*` methods: for each reference name found in
   * the original text, in order, every occurrence of its token in the text
   * so far is replaced by `str` of the parameter, when that is a parameter.
   */
  function SubstituteNames(s: string, names: seq<string>, params: Dict): string
    decreases |names|
  {
    if |names| == 0 then s
    else
      var n := names[0];
      var next := match Lookup(params, n)
        case Some(v) => ReplaceAll(s, RefText(n), Show(v))
        case None => s;
      SubstituteNames(next, names[1..], params)
  }

  /** `_resolve_command` / `_resolve_value` / `_resolve_sql_content` on a text. */
  function Substitute(text: string, params: Dict): string
  {
    SubstituteNames(text, RefNames(Scan(text)), params)
  }

  /** A text in which no reference names a parameter comes back as it was. */
  lemma {:induction false} SubstituteNamesUnknown(s: string, names: seq<string>, params: Dict)
    requires forall i :: 0 <= i < |names| ==> names[i] !in Keys(params)
    ensures SubstituteNames(s, names, params) == s
    decreases |names|
  {
    if |names| > 0 {
      SubstituteNamesUnknown(s, names[1..], params);
    }
  }

  lemma SubstituteUnknown(text: string, params: Dict)
    requires forall p :: p in Scan(text) && p.Ref? ==> p.name !in Keys(params)
    ensures Substitute(text, params) == text
  {
    var names := RefNames(Scan(text));
    forall i | 0 <= i < |names| ensures names[i] !in Keys(params) {
      assert Ref(names[i]) in Scan(text);
    }
    SubstituteNamesUnknown(text, names, params);
  }

  /** A text with no reference at all is unchanged. */
  lemma SubstituteNoRefs(text: string, params: Dict)
    requires NoRefs(text)
    ensures Substitute(text, params) == text
  {
    NoRefNames(Scan(text));
  }

  lemma {:induction false} NoRefNames(ps: seq<Piece>)
    requires forall i :: 0 <= i < |ps| ==> ps[i].Char?
    ensures RefNames(ps) == []
  {
    if |ps| > 0 {
      assert ps[0].Char?;
      NoRefNames(ps[1..]);
    }
  }

  /** The intended reading: each reference to a parameter becomes `str` of its value. */
  function Fill(ps: seq<Piece>, params: Dict): string
  {
    if |ps| == 0 then ""
    else
      (match ps[0]
       case Char(c) => [c]
       case Ref(n) => if Lookup(params, n).Some? then Show(Lookup(params, n).value) else RefText(n))
      + Fill(ps[1..], params)
  }

  /** `Fill` restricted to the names in `done`; the other references stay as written. */
  function Partial(ps: seq<Piece>, done: set<string>, params: Dict): string
  {
    if |ps| == 0 then ""
    else
      (match ps[0]
       case Char(c) => [c]
       case Ref(n) =>
         if n in done && Lookup(params, n).Some? then Show(Lookup(params, n).value) else RefText(n))
      + Partial(ps[1..], done, params)
  }

  /**
   * No '$' stands right before a reference, and no reference name holds a
   * '$': a substituted value then never completes a token with the text
   * around it.
   */
  predicate Clean(ps: seq<Piece>)
  {
    forall i :: 0 <= i < |ps| ==>
      && (ps[i] == Char('$') && i + 1 < |ps| ==> ps[i + 1].Char?)
      && (ps[i].Ref? ==> '$' !in ps[i].name)
  }

  /** The names of references are non-empty and hold no '}', as scanning makes them. */
  predicate WellNamed(ps: seq<Piece>)
  {
    forall i :: 0 <= i < |ps| && ps[i].Ref? ==> |ps[i].name| >= 1 && '}' !in ps[i].name
  }

  /** No parameter renders with a '$', so substituted values start no token. */
  predicate PlainValues(params: Dict)
  {
    forall i :: 0 <= i < |params| ==> '$' !in Show(params[i].1)
  }

  lemma {:induction false} PartialNone(ps: seq<Piece>, params: Dict)
    ensures Partial(ps, {}, params) == Render(ps)
  {
    if |ps| > 0 {
      PartialNone(ps[1..], params);
    }
  }

  lemma {:induction false} PartialAll(ps: seq<Piece>, done: set<string>, params: Dict)
    requires forall i :: 0 <= i < |ps| && ps[i].Ref? ==> ps[i].name in done
    ensures Partial(ps, done, params) == Fill(ps, params)
  {
    if |ps| > 0 {
      PartialAll(ps[1..], done, params);
    }
  }

  /** A token never starts with the token of a different name. */
  lemma RefNotPrefix(m: string, n: string, rest: string)
    requires m != n && '}' !in m && '}' !in n
    ensures !(RefText(n) <= RefText(m) + rest)
  {
    var t := RefText(m) + rest;
    var o := RefText(n);
    assert |n| < |m| ==> t[2 + |n|] == m[|n|] && o[2 + |n|] == '}';
    assert |n| > |m| ==> t[2 + |m|] == '}' && o[2 + |m|] == n[|m|];
    assert |n| == |m| ==> t[2..2 + |n|] == m && o[2..2 + |n|] == n;
  }

  /** Replacing the token of `n` passes over the token of another name. */
  lemma RefPassedOver(m: string, n: string, rest: string, v: string)
    requires m != n && '}' !in m && '}' !in n && '$' !in m
    ensures ReplaceAll(RefText(m) + rest, RefText(n), v) == RefText(m) + ReplaceAll(rest, RefText(n), v)
  {
    RefNotPrefix(m, n, rest);
    var tail := "{" + m + "}";
    assert RefText(m) + rest == ['$'] + (tail + rest);
    ReplaceSkipsChar('$', tail + rest, RefText(n), v);
    ReplaceKeepsPrefix(tail, rest, RefText(n), v);
    assert RefText(m) == ['$'] + tail;
  }

  /** The pieces from the second on satisfy what the whole sequence does. */
  lemma TailFacts(ps: seq<Piece>)
    requires |ps| > 0 && Clean(ps) && Scanned(ps) && WellNamed(ps)
    ensures Clean(ps[1..]) && Scanned(ps[1..]) && WellNamed(ps[1..])
  {
    var t := ps[1..];
    forall i | 0 <= i < |t| ensures t[i] == ps[i + 1] && t[i + 1..] == ps[i + 2..] { }
  }

  /** Characters other than '}' stay themselves, so the text has no '}'. */
  lemma {:induction false} PartialNoClose(ps: seq<Piece>, done: set<string>, params: Dict)
    requires forall j :: 0 <= j < |ps| ==> ps[j] != Char('}') && ps[j].Char?
    ensures |Partial(ps, done, params)| == |ps| && '}' !in Partial(ps, done, params)
  {
    if |ps| > 0 {
      PartialNoClose(ps[1..], done, params);
    }
  }

  /** A '$' left as a character does not start a token, whatever is substituted after it. */
  lemma DollarSkipped(ps: seq<Piece>, done: set<string>, n: string, params: Dict)
    requires |ps| > 0 && ps[0] == Char('$') && Clean(ps) && Scanned(ps)
    requires |n| >= 1 && '}' !in n
    ensures !(RefText(n) <= "$" + Partial(ps[1..], done, params))
  {
    var o, t := RefText(n), "$" + Partial(ps[1..], done, params);
    if |ps| > 1 {
      var d := ps[1].c;
      var after := Partial(ps[2..], done, params);
      assert ps[1..][1..] == ps[2..];
      assert t == "$" + [d] + after;
      if d == '{' {
        assert Unclosed(ps[2..]);
        if |ps| > 2 && ps[2] == Char('}') {
          assert ps[2..][1..] == ps[3..];
          BraceClosesAtOnce(n, Partial(ps[3..], done, params));
        } else {
          PartialNoClose(ps[2..], done, params);
          assert o[|n| + 2] == '}';
          assert |o| <= |t| ==> t[|n| + 2] == after[|n|];
        }
      } else {
        assert t[1] == d && o[1] == '{';
      }
    }
  }

  /** "${}" followed by anything starts no token: names are non-empty. */
  lemma BraceClosesAtOnce(n: string, rest: string)
    requires |n| >= 1 && '}' !in n
    ensures !(RefText(n) <= "${" + ("}" + rest))
  {
    assert ("${" + ("}" + rest))[2] == '}';
    assert RefText(n)[2] == n[0];
  }

  /** One step of the loop on a clean text expands exactly the references to `n`. */
  lemma {:induction false} PartialStep(ps: seq<Piece>, done: set<string>, n: string, params: Dict)
    requires Clean(ps) && Scanned(ps) && WellNamed(ps) && PlainValues(params)
    requires |n| >= 1 && '}' !in n && Lookup(params, n).Some?
    ensures ReplaceAll(Partial(ps, done, params), RefText(n), Show(Lookup(params, n).value))
            == Partial(ps, done + {n}, params)
  {
    var o, v := RefText(n), Show(Lookup(params, n).value);
    if |ps| > 0 {
      TailFacts(ps);
      PartialStep(ps[1..], done, n, params);
      var rest := Partial(ps[1..], done, params);
      match ps[0]
      case Char(c) =>
        if c == '$' {
          DollarSkipped(ps, done, n, params);
          ReplaceSkipsChar(c, rest, o, v);
        } else {
          ReplaceKeepsPrefix([c], rest, o, v);
        }
      case Ref(m) =>
        if m in done && Lookup(params, m).Some? {
          var w := Lookup(params, m).value;
          var k :| 0 <= k < |params| && params[k] == (m, w);
          assert '$' !in Show(params[k].1);
          ReplaceKeepsPrefix(Show(w), rest, o, v);
        } else if m == n {
          ReplaceAtFront(o, rest, v);
        } else {
          RefPassedOver(m, n, rest, v);
        }
    }
  }

  lemma {:induction false} PartialUnknown(ps: seq<Piece>, done: set<string>, n: string, params: Dict)
    requires Lookup(params, n).None?
    ensures Partial(ps, done + {n}, params) == Partial(ps, done, params)
  {
    if |ps| > 0 {
      PartialUnknown(ps[1..], done, n, params);
    }
  }

  /** The names listed, as a set. */
  function NameSet(names: seq<string>): (r: set<string>)
    ensures forall x :: x in r <==> x in names
  {
    set x | x in names
  }

  lemma NameSetCons(names: seq<string>)
    requires |names| > 0
    ensures NameSet(names) == {names[0]} + NameSet(names[1..])
  {
    assert names == [names[0]] + names[1..];
  }

  lemma {:induction false} SubstituteNamesPartial(ps: seq<Piece>, names: seq<string>, done: set<string>, params: Dict)
    requires Clean(ps) && Scanned(ps) && WellNamed(ps) && PlainValues(params)
    requires forall i :: 0 <= i < |names| ==> |names[i]| >= 1 && '}' !in names[i]
    ensures SubstituteNames(Partial(ps, done, params), names, params)
            == Partial(ps, done + NameSet(names), params)
    decreases |names|
  {
    if |names| == 0 {
      assert done + NameSet(names) == done;
    } else {
      var n := names[0];
      NameSetCons(names);
      var later := NameSet(names[1..]);
      assert forall i :: 0 <= i < |names| - 1 ==> names[1..][i] == names[i + 1];
      match Lookup(params, n)
      case Some(v) =>
        PartialStep(ps, done, n, params);
        SubstituteNamesPartial(ps, names[1..], done + {n}, params);
        assert done + {n} + later == done + NameSet(names);
      case None =>
        SubstituteNamesPartial(ps, names[1..], done, params);
        PartialUnknown(ps, done + later, n, params);
        assert done + later + {n} == done + NameSet(names);
    }
  }

  /**
   * On a clean text and parameters that render without '$', substitution
   * replaces every reference to a parameter by `str` of its value and
   * keeps every other reference and character as written.
   */
  lemma SubstituteFills(text: string, params: Dict)
    requires Clean(Scan(text)) && PlainValues(params)
    ensures Substitute(text, params) == Fill(Scan(text), params)
  {
    var ps := Scan(text);
    var names := RefNames(ps);
    ScanScanned(text);
    forall i | 0 <= i < |names| ensures |names[i]| >= 1 && '}' !in names[i] {
      var j :| 0 <= j < |ps| && ps[j] == Ref(names[i]);
    }
    RenderScan(text);
    PartialNone(ps, params);
    SubstituteNamesPartial(ps, names, {}, params);
    PartialAll(ps, {} + NameSet(names), params);
  }

  /** A whole-text token of a parameter becomes `str` of its value; other tokens stay. */
  lemma SubstituteToken(name: string, params: Dict)
    requires |name| >= 1 && '}' !in name
    ensures Substitute(RefText(name), params)
            == if Lookup(params, name).Some? then Show(Lookup(params, name).value) else RefText(name)
  {
    ScanRef(name);
    var s := RefText(name);
    assert RefNames([Ref(name)]) == [name];
    assert [name][1..] == [];
    if Lookup(params, name).Some? {
      var v := Show(Lookup(params, name).value);
      ReplaceAtFront(s, "", v);
      assert s + "" == s;
      assert ReplaceAll("", s, v) == [];
      assert ReplaceAll(s, s, v) == v;
      assert SubstituteNames(s, [name], params) == SubstituteNames(ReplaceAll(s, s, v), [], params);
    } else {
      assert SubstituteNames(s, [name], params) == SubstituteNames(s, [], params);
    }
  }

  // ---------------------------------------------------------------------
  // Resolving parameters through the parameter manager

  /**
   * `resolve_params` on values: every string parameter resolved by the
   * manager, in order; None when one of them cannot be resolved.
   */
  function ResolveDict(store: Store, now: DateTime, d: Dict, depth: nat): (r: Option<Dict>)
    requires ValidTime(now)
    ensures r.Some? ==> |r.value| == |d| && Keys(r.value) == Keys(d)
    ensures r.Some? ==> forall i :: 0 <= i < |d| ==>
      ResolveIn(store, d[i].1, now, depth) == Some(r.value[i].1)
    ensures r.None? <==> exists i :: 0 <= i < |d| && ResolveIn(store, d[i].1, now, depth).None?
  {
    if |d| == 0 then Some([])
    else
      var first := ResolveIn(store, d[0].1, now, depth);
      var rest := ResolveDict(store, now, d[1..], depth);
      assert forall i :: 1 <= i < |d| ==> d[i] == d[1..][i - 1];
      if first.None? then None
      else if rest.None? then None
      else
        var r := [(d[0].0, first.value)] + rest.value;
        assert r[1..] == rest.value && Keys(r) == [d[0].0] + Keys(rest.value);
        assert Keys(d) == [d[0].0] + Keys(d[1..]);
        Some(r)
  }

  /** The position of the first parameter whose resolution fails, or the length when none does. */
  function FirstUnresolvable(store: Store, now: DateTime, d: Dict, depth: nat): (k: nat)
    requires ValidTime(now)
    ensures k <= |d|
    ensures forall j :: 0 <= j < k ==> ResolveIn(store, d[j].1, now, depth).Some?
    ensures k < |d| ==> ResolveIn(store, d[k].1, now, depth).None?
  {
    if |d| == 0 || ResolveIn(store, d[0].1, now, depth).None? then 0
    else
      assert forall j :: 1 <= j < |d| ==> d[j] == d[1..][j - 1];
      FirstUnresolvable(store, now, d[1..], depth) + 1
  }

  /**
   * The parameters as `resolve_params` leaves them, whether or not it
   * raises: each entry up to the first that fails replaced by its
   * resolution, that one and the rest as they were.
   */
  function ResolvedInPlace(store: Store, now: DateTime, d: Dict, depth: nat): (r: Dict)
    requires ValidTime(now)
    ensures |r| == |d| && Keys(r) == Keys(d)
    ensures var k := FirstUnresolvable(store, now, d, depth);
      (forall j :: 0 <= j < k ==> ResolveIn(store, d[j].1, now, depth) == Some(r[j].1)) &&
      r[k..] == d[k..]
  {
    if |d| == 0 then []
    else
      match ResolveIn(store, d[0].1, now, depth)
      case None => d
      case Some(v) =>
        var rest := ResolvedInPlace(store, now, d[1..], depth);
        var r := [(d[0].0, v)] + rest;
        assert forall j :: 1 <= j < |d| ==> d[j] == d[1..][j - 1] && r[j] == rest[j - 1];
        assert Keys(r) == [d[0].0] + Keys(rest) && Keys(d) == [d[0].0] + Keys(d[1..]);
        var k := FirstUnresolvable(store, now, d[1..], depth);
        assert r[k + 1..] == rest[k..] && d[k + 1..] == d[1..][k..];
        r
  }

  /**
   * A dictionary resolved up to position `k`, where the first resolution
   * fails, and untouched from there on, is the in-place resolution.
   */
  lemma InPlaceAt(store: Store, now: DateTime, d: Dict, depth: nat, r: Dict, k: nat)
    requires ValidTime(now) && k <= |d| == |r|
    requires forall j :: 0 <= j < |d| ==> r[j].0 == d[j].0
    requires forall j :: 0 <= j < k ==> ResolveIn(store, d[j].1, now, depth) == Some(r[j].1)
    requires forall j :: k <= j < |d| ==> r[j] == d[j]
    requires k < |d| ==> ResolveIn(store, d[k].1, now, depth).None?
    ensures r == ResolvedInPlace(store, now, d, depth)
  {
    var e := ResolvedInPlace(store, now, d, depth);
    assert FirstUnresolvable(store, now, d, depth) == k;
    forall j | 0 <= j < |d| ensures r[j] == e[j] {
      assert Keys(e)[j] == Keys(d)[j];
      if j >= k { assert e[j] == e[k..][j - k]; }
    }
  }

  /**
   * The in-place resolution and the all-or-nothing one agree: the latter
   * succeeds exactly when no entry fails, and then both give the same
   * dictionary.
   */
  lemma ResolvedInPlaceSpec(store: Store, now: DateTime, d: Dict, depth: nat)
    requires ValidTime(now)
    ensures ResolveDict(store, now, d, depth).Some? <==> FirstUnresolvable(store, now, d, depth) == |d|
    ensures ResolveDict(store, now, d, depth).Some? ==>
      ResolveDict(store, now, d, depth).value == ResolvedInPlace(store, now, d, depth)
    ensures ResolveDict(store, now, d, depth).None? ==>
      ResolvedInPlace(store, now, d, depth)[FirstUnresolvable(store, now, d, depth)] ==
        d[FirstUnresolvable(store, now, d, depth)]
  {
    var k := FirstUnresolvable(store, now, d, depth);
    var r := ResolveDict(store, now, d, depth);
    if r.Some? {
      assert k == |d|;
      forall j | 0 <= j < |d| ensures r.value[j].0 == d[j].0 {
        assert Keys(r.value)[j] == Keys(d)[j];
      }
      InPlaceAt(store, now, d, depth, r.value, |d|);
    } else {
      var e := ResolvedInPlace(store, now, d, depth);
      assert e[k] == e[k..][0];
    }
  }

  /** Non-string parameters, and strings without references, survive resolution unchanged. */
  lemma ResolvePlainParams(store: Store, now: DateTime, d: Dict, depth: nat, i: nat)
    requires ValidTime(now) && i < |d| && ResolveDict(store, now, d, depth).Some?
    requires !d[i].1.Str? || NoRefs(d[i].1.s)
    ensures ResolveDict(store, now, d, depth).value[i] == d[i]
  {
  }

  /** The `python_callable` keyword arguments. */
  datatype Kwarg = ParamArg(value: Value) | UpstreamArg(results: map<string, TaskResult>)

  /**
   * `{**params}` plus `upstream_results` when there are any: every
   * parameter is passed by name, in order, and `upstream_results` only when
   * non-empty; assigning it keeps the place of a parameter of that name and
   * otherwise comes last.
   */
  function CallableKwargs(params: Dict, upstream: map<string, TaskResult>): (kw: seq<(string, Kwarg)>)
    ensures |upstream| == 0 || "upstream_results" in Keys(params) ==> |kw| == |params|
    ensures |upstream| > 0 && "upstream_results" !in Keys(params) ==>
      |kw| == |params| + 1 && kw[|params|] == ("upstream_results", UpstreamArg(upstream))
    ensures forall i :: 0 <= i < |params| ==>
      kw[i] == if |upstream| > 0 && params[i].0 == "upstream_results" then ("upstream_results", UpstreamArg(upstream))
               else (params[i].0, ParamArg(params[i].1))
    ensures |upstream| > 0 ==> ("upstream_results", UpstreamArg(upstream)) in kw
    ensures |upstream| == 0 ==> forall j :: 0 <= j < |kw| ==> kw[j].1.ParamArg?
  {
    var base := seq(|params|, i requires 0 <= i < |params| => (params[i].0, ParamArg(params[i].1)));
    assert forall i :: 0 <= i < |params| ==> base[i].0 == Keys(params)[i];
    if |upstream| == 0 then base
    else
      assert "upstream_results" in Keys(params) ==> exists i :: 0 <= i < |base| && base[i].0 == "upstream_results";
      AssignKwarg(base, "upstream_results", UpstreamArg(upstream))
  }

  /** `kwargs[k] = v`: the entry of that name takes the value in its place, or one is added last. */
  function AssignKwarg(d: seq<(string, Kwarg)>, k: string, v: Kwarg): (r: seq<(string, Kwarg)>)
    ensures (exists i :: 0 <= i < |d| && d[i].0 == k) ==>
      |r| == |d| && forall i :: 0 <= i < |d| ==> r[i] == if d[i].0 == k then (k, v) else d[i]
    ensures (forall i :: 0 <= i < |d| ==> d[i].0 != k) ==> r == d + [(k, v)]
  {
    if |d| == 0 then [(k, v)]
    else
      var rest := AssignKwarg(d[1..], k, v);
      assert forall i :: 1 <= i < |d| ==> d[1..][i - 1] == d[i];
      if d[0].0 == k then
        [(k, v)] + (if exists i :: 0 <= i < |d| - 1 && d[1..][i].0 == k then rest else d[1..])
      else [d[0]] + rest
  }

  // ---------------------------------------------------------------------
  // Argument vectors

  /** `f"{key}={value}"`. */
  function Assignment(key: string, value: Value): string { key + "=" + Show(value) }

  /** The shown entries of a dictionary: what each assignment is built from. */
  function Shown(d: Dict): (r: seq<(string, string)>)
    ensures |r| == |d| && forall i :: 0 <= i < |d| ==> r[i] == (d[i].0, Show(d[i].1))
  {
    seq(|d|, i requires 0 <= i < |d| => (d[i].0, Show(d[i].1)))
  }

  /** `for k, v in d.items(): command.append(flag); command.append(f"{k}={v}")`. */
  function Flagged(flag: string, d: Dict): (args: seq<string>)
    ensures |args| == 2 * |d|
    ensures forall i :: 0 <= i < |d| ==> args[2 * i] == flag && args[2 * i + 1] == Assignment(d[i].0, d[i].1)
  {
    if |d| == 0 then []
    else
      var rest := Flagged(flag, d[1..]);
      var r := [flag, Assignment(d[0].0, d[0].1)] + rest;
      assert forall i :: 0 <= i < |d| ==> r[2 * i] == flag && r[2 * i + 1] == Assignment(d[i].0, d[i].1) by {
        forall i | 0 <= i < |d| ensures r[2 * i] == flag && r[2 * i + 1] == Assignment(d[i].0, d[i].1) {
          if i > 0 {
            assert d[1..][i - 1] == d[i];
            assert r[2 * i] == rest[2 * (i - 1)] && r[2 * i + 1] == rest[2 * (i - 1) + 1];
          }
        }
      }
      r
  }

  /** `for k, v in d.items(): command.append(f"--{k}={v}")`. */
  function LongOptions(d: Dict): (args: seq<string>)
    ensures |args| == |d|
    ensures forall i :: 0 <= i < |d| ==> args[i] == "--" + Assignment(d[i].0, d[i].1)
  {
    if |d| == 0 then []
    else
      var rest := LongOptions(d[1..]);
      var r := ["--" + Assignment(d[0].0, d[0].1)] + rest;
      assert forall i :: 1 <= i < |d| ==> r[i] == rest[i - 1] && d[1..][i - 1] == d[i];
      r
  }

  /** `for s in scripts: command.extend(["-i", s])`. */
  function InitOptions(scripts: seq<string>): (args: seq<string>)
    ensures |args| == 2 * |scripts|
    ensures forall i :: 0 <= i < |scripts| ==> args[2 * i] == "-i" && args[2 * i + 1] == scripts[i]
  {
    if |scripts| == 0 then []
    else
      var rest := InitOptions(scripts[1..]);
      var r := ["-i", scripts[0]] + rest;
      assert forall i :: 0 <= i < |scripts| ==> r[2 * i] == "-i" && r[2 * i + 1] == scripts[i] by {
        forall i | 0 <= i < |scripts| ensures r[2 * i] == "-i" && r[2 * i + 1] == scripts[i] {
          if i > 0 {
            assert scripts[1..][i - 1] == scripts[i];
            assert r[2 * i] == rest[2 * (i - 1)] && r[2 * i + 1] == rest[2 * (i - 1) + 1];
          }
        }
      }
      r
  }

  /** `python <script> --k=v ...` of a script or script-content Python task. */
  function PythonArgs(script: string, params: Dict): seq<string>
  {
    ["python", script] + LongOptions(params)
  }

  /** `spark-submit --conf k=v ... <script> --k=v ...` of a PySpark task. */
  function PySparkArgs(conf: Dict, script: string, params: Dict): seq<string>
  {
    ["spark-submit"] + Flagged("--conf", conf) + [script] + LongOptions(params)
  }

  /** `<program> -i s ... <confFlag> k=v ... -f <file> --hivevar k=v ...`. */
  function SqlArgs(program: string, confFlag: string, inits: seq<string>, conf: Dict, file: string, params: Dict)
    : seq<string>
  {
    [program] + InitOptions(inits) + Flagged(confFlag, conf) + ["-f", file] + Flagged("--hivevar", params)
  }

  /** The vector of a Spark SQL task, configured with `--conf`. */
  function SparkSqlArgs(inits: seq<string>, conf: Dict, file: string, params: Dict): seq<string>
  {
    SqlArgs("spark-sql", "--conf", inits, conf, file, params)
  }

  /** The vector of a Hive task, configured with `--hiveconf`. */
  function HiveArgs(inits: seq<string>, conf: Dict, file: string, params: Dict): seq<string>
  {
    SqlArgs("hive", "--hiveconf", inits, conf, file, params)
  }

  // Reading the vectors back

  /** `k=v` for each entry, without the flags. */
  function Assignments(d: Dict): seq<string>
  {
    if |d| == 0 then [] else [Assignment(d[0].0, d[0].1)] + Assignments(d[1..])
  }

  /** Splits `k=v` at its first '='. */
  function SplitAssignment(a: string): Option<(string, string)>
  {
    match IndexOf(a, "=")
    case Some(k) => Some((a[..k], a[k + 1..]))
    case None => None
  }

  lemma SplitAssignmentOf(key: string, value: Value)
    requires '=' !in key
    ensures SplitAssignment(Assignment(key, value)) == Some((key, Show(value)))
  {
    var a := Assignment(key, value);
    assert OccursAt(a, "=", |key|) by { assert a[|key|..|key| + 1] == "="; }
    forall j | 0 <= j < |key| ensures !OccursAt(a, "=", j) {
      assert a[j..j + 1] == [key[j]] && key[j] in key;
    }
    assert a[..|key|] == key && a[|key| + 1..] == Show(value);
  }

  /** Reads `flag arg` pairs while the next word is `flag`; returns them and the rest. */
  function ReadFlagged(args: seq<string>, flag: string): (r: (seq<string>, seq<string>))
    ensures |r.1| <= |args|
  {
    if |args| >= 2 && args[0] == flag then
      var rest := ReadFlagged(args[2..], flag);
      ([args[1]] + rest.0, rest.1)
    else ([], args)
  }

  lemma {:induction false} ReadFlaggedOf(flag: string, d: Dict, tail: seq<string>)
    requires |tail| == 0 || tail[0] != flag
    ensures ReadFlagged(Flagged(flag, d) + tail, flag)
            == (Assignments(d), tail)
  {
    if |d| > 0 {
      assert (Flagged(flag, d) + tail)[2..] == Flagged(flag, d[1..]) + tail;
      ReadFlaggedOf(flag, d[1..], tail);
    } else {
      assert Flagged(flag, d) + tail == tail;
    }
  }

  lemma {:induction false} ReadInitsOf(scripts: seq<string>, tail: seq<string>)
    requires |tail| == 0 || tail[0] != "-i"
    ensures ReadFlagged(InitOptions(scripts) + tail, "-i") == (scripts, tail)
  {
    if |scripts| > 0 {
      var a := InitOptions(scripts) + tail;
      assert InitOptions(scripts) == ["-i", scripts[0]] + InitOptions(scripts[1..]);
      assert a == ["-i", scripts[0]] + (InitOptions(scripts[1..]) + tail);
      assert a[2..] == InitOptions(scripts[1..]) + tail;
      ReadInitsOf(scripts[1..], tail);
      assert ReadFlagged(a, "-i") == ([scripts[0]] + scripts[1..], tail);
      assert [scripts[0]] + scripts[1..] == scripts;
    } else {
      assert InitOptions(scripts) + tail == tail;
    }
  }

  /** Every word split as an assignment, or None. */
  function SplitAll(words: seq<string>): Option<seq<(string, string)>>
  {
    if |words| == 0 then Some([])
    else
      match (SplitAssignment(words[0]), SplitAll(words[1..]))
      case (Some(p), Some(ps)) => Some([p] + ps)
      case _ => None
  }

  predicate PlainKeys(d: Dict) { forall i :: 0 <= i < |d| ==> '=' !in d[i].0 }

  lemma {:induction false} SplitAllOf(d: Dict)
    requires PlainKeys(d)
    ensures SplitAll(Assignments(d)) == Some(Shown(d))
  {
    if |d| > 0 {
      assert Assignments(d)[1..] == Assignments(d[1..]);
      SplitAssignmentOf(d[0].0, d[0].1);
      SplitAllOf(d[1..]);
      assert Shown(d) == [(d[0].0, Show(d[0].1))] + Shown(d[1..]);
    }
  }

  /** A SQL task vector read back: init scripts, configuration, file and variables. */
  datatype SqlCommand = SqlCommand(inits: seq<string>, conf: seq<(string, string)>,
                                   file: string, vars: seq<(string, string)>)

  /** Reads a `spark-sql`/`hive` vector whose configuration flag is `confFlag`. */
  function ParseSqlArgs(program: string, confFlag: string, args: seq<string>): Option<SqlCommand>
  {
    if |args| == 0 || args[0] != program then None
    else
      var (inits, afterInits) := ReadFlagged(args[1..], "-i");
      var (confs, afterConf) := ReadFlagged(afterInits, confFlag);
      if |afterConf| < 2 || afterConf[0] != "-f" then None
      else
        var (vars, afterVars) := ReadFlagged(afterConf[2..], "--hivevar");
        if |afterVars| != 0 then None
        else
          match (SplitAll(confs), SplitAll(vars))
          case (Some(c), Some(v)) => Some(SqlCommand(inits, c, afterConf[1], v))
          case _ => None
  }

  /** A SQL task vector is its program followed by its three option runs. */
  lemma SqlArgsTail(program: string, confFlag: string, inits: seq<string>, conf: Dict, file: string, params: Dict)
    ensures SqlArgs(program, confFlag, inits, conf, file, params)[1..] ==
            InitOptions(inits) + (Flagged(confFlag, conf) + (["-f", file] + Flagged("--hivevar", params)))
  {
    var a, b, c, d := InitOptions(inits), Flagged(confFlag, conf), ["-f", file], Flagged("--hivevar", params);
    assert [program] + a + b + c + d == [program] + (a + (b + (c + d)));
  }

  /** The three option runs of a SQL task vector are read back one after the other. */
  lemma SqlArgsRead(program: string, confFlag: string, inits: seq<string>, conf: Dict, file: string, params: Dict)
    requires confFlag != "-i" && confFlag != "-f"
    ensures var tail2 := ["-f", file] + Flagged("--hivevar", params);
            var tail1 := Flagged(confFlag, conf) + tail2;
            SqlArgs(program, confFlag, inits, conf, file, params)[1..] == InitOptions(inits) + tail1
            && ReadFlagged(InitOptions(inits) + tail1, "-i") == (inits, tail1)
            && ReadFlagged(tail1, confFlag) == (Assignments(conf), tail2)
            && ReadFlagged(tail2[2..], "--hivevar") == (Assignments(params), [])
  {
    var tail2 := ["-f", file] + Flagged("--hivevar", params);
    var tail1 := Flagged(confFlag, conf) + tail2;
    assert |tail1| == 0 || tail1[0] != "-i" by {
      if |conf| > 0 { assert tail1[0] == confFlag; } else { assert tail1 == tail2; }
    }
    SqlArgsTail(program, confFlag, inits, conf, file, params);
    ReadInitsOf(inits, tail1);
    ReadFlaggedOf(confFlag, conf, tail2);
    assert tail2[2..] == Flagged("--hivevar", params) + [];
    ReadFlaggedOf("--hivevar", params, []);
  }

  /**
   * A SQL task vector is read back to exactly what built it: the init
   * scripts, the configuration and the variables in insertion order, and
   * the SQL file.
   */
  lemma SqlArgsRoundTrip(program: string, confFlag: string, inits: seq<string>, conf: Dict, file: string, params: Dict)
    requires confFlag != "-i" && confFlag != "-f"
    requires PlainKeys(conf) && PlainKeys(params)
    ensures ParseSqlArgs(program, confFlag, SqlArgs(program, confFlag, inits, conf, file, params))
            == Some(SqlCommand(inits, Shown(conf), file, Shown(params)))
  {
    SqlArgsRead(program, confFlag, inits, conf, file, params);
    SplitAllOf(conf);
    SplitAllOf(params);
  }

  /** The `spark-sql` vector of a Spark SQL task reads back to its parts. */
  lemma SparkSqlArgsRoundTrip(inits: seq<string>, conf: Dict, file: string, params: Dict)
    requires PlainKeys(conf) && PlainKeys(params)
    ensures ParseSqlArgs("spark-sql", "--conf", SparkSqlArgs(inits, conf, file, params))
            == Some(SqlCommand(inits, Shown(conf), file, Shown(params)))
  {
    SqlArgsRoundTrip("spark-sql", "--conf", inits, conf, file, params);
  }

  /** The `hive` vector of a Hive task reads back the same way, with `--hiveconf`. */
  lemma HiveArgsRoundTrip(inits: seq<string>, conf: Dict, file: string, params: Dict)
    requires PlainKeys(conf) && PlainKeys(params)
    ensures ParseSqlArgs("hive", "--hiveconf", HiveArgs(inits, conf, file, params))
            == Some(SqlCommand(inits, Shown(conf), file, Shown(params)))
  {
    SqlArgsRoundTrip("hive", "--hiveconf", inits, conf, file, params);
  }

  /** Reads the `--k=v` options of a script run back. */
  function ParseLongOptions(words: seq<string>): Option<seq<(string, string)>>
  {
    if |words| == 0 then Some([])
    else if !("--" <= words[0]) then None
    else
      match (SplitAssignment(words[0][2..]), ParseLongOptions(words[1..]))
      case (Some(p), Some(ps)) => Some([p] + ps)
      case _ => None
  }

  lemma {:induction false} ParseLongOptionsOf(d: Dict)
    requires PlainKeys(d)
    ensures ParseLongOptions(LongOptions(d)) == Some(Shown(d))
  {
    if |d| > 0 {
      var rest := LongOptions(d[1..]);
      assert LongOptions(d) == ["--" + Assignment(d[0].0, d[0].1)] + rest;
      ParseLongOptionsOf(d[1..]);
      LongOptionStep(d[0].0, d[0].1, rest, Shown(d[1..]));
      assert Shown(d) == [(d[0].0, Show(d[0].1))] + Shown(d[1..]);
    }
  }

  /** One `--k=v` option in front of options already read back. */
  lemma LongOptionStep(key: string, value: Value, rest: seq<string>, tail: seq<(string, string)>)
    requires '=' !in key && ParseLongOptions(rest) == Some(tail)
    ensures ParseLongOptions(["--" + Assignment(key, value)] + rest) == Some([(key, Show(value))] + tail)
  {
    var w := "--" + Assignment(key, value);
    assert w[2..] == Assignment(key, value);
    SplitAssignmentOf(key, value);
    assert ([w] + rest)[1..] == rest;
  }

  /** The script vector of a Python task holds the script and then every parameter, in order. */
  lemma PythonArgsRoundTrip(script: string, params: Dict)
    requires PlainKeys(params)
    ensures var args := PythonArgs(script, params);
            args[..2] == ["python", script] && ParseLongOptions(args[2..]) == Some(Shown(params))
  {
    assert PythonArgs(script, params)[2..] == LongOptions(params);
    ParseLongOptionsOf(params);
  }

  /** The PySpark vector: configuration pairs, then the script, then the parameters. */
  lemma PySparkArgsRoundTrip(conf: Dict, script: string, params: Dict)
    requires PlainKeys(conf) && PlainKeys(params) && script != "--conf"
    ensures var args := PySparkArgs(conf, script, params);
            var (confs, rest) := ReadFlagged(args[1..], "--conf");
            args[0] == "spark-submit" && SplitAll(confs) == Some(Shown(conf))
            && |rest| >= 1 && rest[0] == script && ParseLongOptions(rest[1..]) == Some(Shown(params))
  {
    var args := PySparkArgs(conf, script, params);
    var tail := [script] + LongOptions(params);
    assert args[1..] == Flagged("--conf", conf) + tail;
    ReadFlaggedOf("--conf", conf, tail);
    SplitAllOf(conf);
    assert tail[1..] == LongOptions(params);
    ParseLongOptionsOf(params);
  }

  /** `spark_config` with each string value resolved against the task's parameters. */
  function ResolvedConfig(conf: Dict, params: Dict): (r: Dict)
    ensures |r| == |conf| && Keys(r) == Keys(conf)
    ensures forall i :: 0 <= i < |conf| ==>
      r[i].1 == if conf[i].1.Str? then Str(Substitute(conf[i].1.s, params)) else conf[i].1
  {
    if |conf| == 0 then []
    else
      var v := if conf[0].1.Str? then Str(Substitute(conf[0].1.s, params)) else conf[0].1;
      var r := [(conf[0].0, v)] + ResolvedConfig(conf[1..], params);
      assert Keys(r) == [conf[0].0] + Keys(r[1..]);
      assert Keys(conf) == [conf[0].0] + Keys(conf[1..]);
      r
  }

  const SubstitutionKey := "spark.sql.variable.substitution"

  // ---------------------------------------------------------------------
  // The task object

  class Task {
    const taskId: string
    const spec: TaskSpec
    var params: Dict
    /** `spark_config` or `hive_config`; empty for the other classes. */
    var config: Dict

    ghost predicate Valid()
      reads this
    {
      DistinctKeys(params) && DistinctKeys(config)
    }

    constructor(id: string, spec: TaskSpec, params: Dict, config: Dict)
      requires HasSource(spec) && DistinctKeys(params) && DistinctKeys(config)
      ensures taskId == id && this.spec == spec && this.params == params && this.config == config
      ensures Valid()
    {
      taskId := id;
      this.spec := spec;
      this.params := params;
      this.config := config;
    }

    /** `set_param`: stores the value and returns the task itself. */
    method SetParam(key: string, value: Value) returns (self: Task)
      requires Valid()
      modifies this
      ensures self == this && Valid()
      ensures params == Put(old(params), key, value) && config == old(config)
    {
      PutKeepsDistinct(params, key, value);
      params := Put(params, key, value);
      self := this;
    }

    /** `get_param`: the stored value, or the default for an absent key. */
    function GetParam(key: string, default: Value): (r: Value)
      reads this
      ensures key in Keys(params) ==> Lookup(params, key) == Some(r)
      ensures key !in Keys(params) ==> r == default
    {
      match Lookup(params, key)
      case Some(v) => v
      case None => default
    }

    /**
     * `resolve_params`: each string parameter, in order, replaced by the
     * manager's resolution of it; on a failed resolution the loop stops
     * there (Python raises), and false is returned.
     */
    method ResolveParams(pm: ParamManager, now: DateTime, depth: nat) returns (ok: bool)
      requires Valid() && ValidTime(now)
      modifies this
      ensures Valid() && config == old(config) && Keys(params) == Keys(old(params))
      ensures ok <==> ResolveDict(pm.params, now, old(params), depth).Some?
      ensures ok ==> params == ResolveDict(pm.params, now, old(params), depth).value
      ensures params == ResolvedInPlace(pm.params, now, old(params), depth)
      ensures !ok ==> var k := FirstUnresolvable(pm.params, now, old(params), depth);
        && k < |params| && old(params)[k].1.Str? && ResolveIn(pm.params, old(params)[k].1, now, depth).None?
        && (forall j :: 0 <= j < k ==> ResolveIn(pm.params, old(params)[j].1, now, depth) == Some(params[j].1))
        && params[k..] == old(params)[k..]
    {
      var items := params;
      ghost var store := pm.params;
      ok := true;
      var i := 0;
      while i < |items|
        invariant 0 <= i <= |items| && |params| == |items| && Valid() && config == old(config)
        invariant forall j :: 0 <= j < |items| ==> params[j].0 == items[j].0
        invariant forall j :: i <= j < |items| ==> params[j] == items[j]
        invariant forall j :: 0 <= j < i ==> ResolveIn(store, items[j].1, now, depth) == Some(params[j].1)
      {
        var (key, value) := items[i];
        if value.Str? {
          var r := pm.ResolveValue(value, now, depth);
          if r.None? {
            assert Keys(params) == Keys(items);
            InPlaceAt(store, now, items, depth, params, i);
            ResolvedInPlaceSpec(store, now, items, depth);
            ok := false;
            return;
          }
          PutAt(params, i, r.value);
          PutKeepsDistinct(params, key, r.value);
          params := Put(params, key, r.value);
        }
        i := i + 1;
      }
      assert Keys(params) == Keys(items);
      ghost var expected := ResolveDict(store, now, items, depth);
      assert expected.Some?;
      assert params == expected.value by {
        assert forall j :: 0 <= j < |items| ==> params[j].0 == expected.value[j].0 by {
          assert forall j :: 0 <= j < |items| ==> Keys(expected.value)[j] == Keys(items)[j];
        }
      }
      ResolvedInPlaceSpec(store, now, items, depth);
    }

    /** The shared loop of the `_resolve_*` methods, over the references of the original text. */
    method SubstituteRefs(text: string) returns (resolved: string)
      ensures resolved == Substitute(text, params)
    {
      resolved := text;
      var names := RefNames(Scan(text));
      var i := 0;
      while i < |names|
        invariant 0 <= i <= |names|
        invariant SubstituteNames(resolved, names[i..], params) == Substitute(text, params)
      {
        assert names[i..][1..] == names[i + 1..];
        var name := names[i];
        if name in Keys(params) {
          resolved := ReplaceAll(resolved, RefText(name), Show(Lookup(params, name).value));
        }
        i := i + 1;
      }
    }

    /** `ShellTask._resolve_command`. */
    method ResolveCommand() returns (resolved: string)
      requires spec.Shell?
      ensures resolved == Substitute(spec.command, params)
    {
      resolved := SubstituteRefs(spec.command);
    }

    /** `_resolve_script_content`: "" without script content. */
    method ResolveScriptContent() returns (resolved: string)
      requires spec.Python? || spec.PySpark?
      ensures !Given(spec.scriptContent) ==> resolved == ""
      ensures Given(spec.scriptContent) ==> resolved == Substitute(spec.scriptContent.value, params)
    {
      if !Given(spec.scriptContent) {
        return "";
      }
      resolved := SubstituteRefs(spec.scriptContent.value);
    }

    /** `_resolve_sql_content`: "" for an empty text. */
    method ResolveSqlContent(sql: string) returns (resolved: string)
      ensures sql == "" ==> resolved == ""
      ensures resolved == Substitute(sql, params)
    {
      if sql == "" {
        return "";
      }
      resolved := SubstituteRefs(sql);
    }

    /** `_resolve_value`: a non-string or an empty string is returned as it is. */
    method ResolveValue(value: Value) returns (resolved: Value)
      ensures !value.Str? ==> resolved == value
      ensures value.Str? ==> resolved == Str(Substitute(value.s, params))
    {
      if !value.Str? || value.s == "" {
        return value;
      }
      var s := SubstituteRefs(value.s);
      resolved := Str(s);
    }

    /** The configuration loop of `execute`: each value passed through `_resolve_value`. */
    method ResolveConfig() returns (resolved: Dict)
      ensures resolved == ResolvedConfig(config, params)
    {
      resolved := [];
      var i := 0;
      while i < |config|
        invariant 0 <= i <= |config|
        invariant resolved == ResolvedConfig(config[..i], params)
      {
        var v := ResolveValue(config[i].1);
        ResolvedConfigAppend(config[..i], config[i], params);
        assert config[..i + 1] == config[..i] + [config[i]];
        resolved := resolved + [(config[i].0, v)];
        i := i + 1;
      }
      assert config[..|config|] == config;
    }

    /** `PythonTask.execute` on a script: the vector of a script path or a temporary script. */
    method PythonCommand(script: string) returns (command: seq<string>)
      requires spec.Python?
      ensures command == PythonArgs(script, params)
    {
      command := AppendLongOptions(["python", script], params);
    }

    /** `PySparkTask.execute`: configuration, script, then parameters. */
    method PySparkCommand(script: string) returns (command: seq<string>)
      requires spec.PySpark?
      ensures command == PySparkArgs(ResolvedConfig(config, params), script, params)
    {
      var conf := ResolveConfig();
      command := ["spark-submit"];
      command := AppendFlagged(command, "--conf", conf);
      command := command + [script];
      command := AppendLongOptions(command, params);
    }

    /**
     * `SparkSQLTask.execute`: with init scripts, `-i` options and the
     * variable-substitution setting, added to the task's own configuration
     * unless already there; then configuration, file and variables.
     */
    method SparkSqlCommand(initPaths: seq<string>, sqlFile: string) returns (command: seq<string>)
      requires spec.SparkSql? && Valid() && |initPaths| == |spec.initScripts|
      modifies this
      ensures Valid() && params == old(params)
      ensures config == if |initPaths| > 0 && SubstitutionKey !in Keys(old(config))
                        then old(config) + [(SubstitutionKey, Str("true"))] else old(config)
      ensures command == SparkSqlArgs(initPaths, ResolvedConfig(config, params), sqlFile, params)
    {
      command := ["spark-sql"];
      if |initPaths| > 0 {
        command := AppendInits(command, initPaths);
        EnableSubstitution();
      }
      var conf := ResolveConfig();
      command := AppendFlagged(command, "--conf", conf);
      command := command + ["-f", sqlFile];
      command := AppendFlagged(command, "--hivevar", params);
      assert InitOptions([]) == [];
    }

    /** `spark_config[SUBSTITUTION_KEY] = "true"` unless the key is already set. */
    method EnableSubstitution()
      requires Valid()
      modifies this
      ensures Valid() && params == old(params)
      ensures config == if SubstitutionKey !in Keys(old(config))
                        then old(config) + [(SubstitutionKey, Str("true"))] else old(config)
    {
      if SubstitutionKey !in Keys(config) {
        PutKeepsDistinct(config, SubstitutionKey, Str("true"));
        PutAppends(config, SubstitutionKey, Str("true"));
        config := Put(config, SubstitutionKey, Str("true"));
      }
    }

    /** `HiveSQLTask.execute`: as Spark SQL with `--hiveconf`, and no added setting. */
    method HiveCommand(initPaths: seq<string>, sqlFile: string) returns (command: seq<string>)
      requires spec.HiveSql? && |initPaths| == |spec.initScripts|
      ensures command == HiveArgs(initPaths, ResolvedConfig(config, params), sqlFile, params)
    {
      command := ["hive"];
      command := AppendInits(command, initPaths);
      var conf := ResolveConfig();
      command := AppendFlagged(command, "--hiveconf", conf);
      command := command + ["-f", sqlFile];
      command := AppendFlagged(command, "--hivevar", params);
    }
  }

  lemma {:induction false} ResolvedConfigAppend(conf: Dict, e: (string, Value), params: Dict)
    ensures ResolvedConfig(conf + [e], params)
            == ResolvedConfig(conf, params) + [(e.0, if e.1.Str? then Str(Substitute(e.1.s, params)) else e.1)]
  {
    var a := ResolvedConfig(conf + [e], params);
    var b := ResolvedConfig(conf, params) + [(e.0, if e.1.Str? then Str(Substitute(e.1.s, params)) else e.1)];
    assert |a| == |b|;
    forall i | 0 <= i < |a| ensures a[i] == b[i] {
      assert Keys(a)[i] == Keys(conf + [e])[i];
      if i < |conf| {
        assert Keys(ResolvedConfig(conf, params))[i] == Keys(conf)[i];
        assert (conf + [e])[i] == conf[i];
      }
    }
  }

  lemma {:induction false} LongOptionsAppend(d: Dict, e: (string, Value))
    ensures LongOptions(d + [e]) == LongOptions(d) + ["--" + Assignment(e.0, e.1)]
  {
    var a, b := LongOptions(d + [e]), LongOptions(d) + ["--" + Assignment(e.0, e.1)];
    assert |a| == |b|;
    forall i | 0 <= i < |a| ensures a[i] == b[i] {
      if i < |d| { assert (d + [e])[i] == d[i]; }
    }
  }

  lemma {:induction false} FlaggedAppend(flag: string, d: Dict, e: (string, Value))
    ensures Flagged(flag, d + [e]) == Flagged(flag, d) + [flag, Assignment(e.0, e.1)]
  {
    var a, b := Flagged(flag, d + [e]), Flagged(flag, d) + [flag, Assignment(e.0, e.1)];
    assert |a| == |b|;
    forall k | 0 <= k < |a| ensures a[k] == b[k] {
      var i := k / 2;
      if i < |d| { assert (d + [e])[i] == d[i]; }
      if k % 2 == 0 { assert k == 2 * i; } else { assert k == 2 * i + 1; }
    }
  }

  lemma {:induction false} InitOptionsAppend(s: seq<string>, x: string)
    ensures InitOptions(s + [x]) == InitOptions(s) + ["-i", x]
  {
    if |s| == 0 {
      assert s + [x] == [x];
    } else {
      assert (s + [x])[1..] == s[1..] + [x];
      InitOptionsAppend(s[1..], x);
    }
  }

  lemma PutAppends(d: Dict, k: string, v: Value)
    requires k !in Keys(d)
    ensures Put(d, k, v) == d + [(k, v)]
  {
    if |d| > 0 {
      assert Keys(d) == [d[0].0] + Keys(d[1..]);
      PutAppends(d[1..], k, v);
      assert Put(d, k, v) == [d[0]] + Put(d[1..], k, v);
      ConsAppend(d, (k, v));
    }
  }

  lemma ConsAppend(d: Dict, x: (string, Value))
    requires |d| > 0
    ensures [d[0]] + (d[1..] + [x]) == d + [x]
  {
    assert d == [d[0]] + d[1..];
  }

  /** `command.append(flag); command.append(f"{k}={v}")` for each entry. */
  method AppendFlagged(command: seq<string>, flag: string, d: Dict) returns (r: seq<string>)
    ensures r == command + Flagged(flag, d)
  {
    r := command;
    var i := 0;
    while i < |d|
      invariant 0 <= i <= |d|
      invariant r == command + Flagged(flag, d[..i])
    {
      FlaggedAppend(flag, d[..i], d[i]);
      assert d[..i + 1] == d[..i] + [d[i]];
      r := r + [flag, Assignment(d[i].0, d[i].1)];
      i := i + 1;
    }
    assert d[..|d|] == d;
  }

  /** `command.append(f"--{k}={v}")` for each entry. */
  method AppendLongOptions(command: seq<string>, d: Dict) returns (r: seq<string>)
    ensures r == command + LongOptions(d)
  {
    r := command;
    var i := 0;
    while i < |d|
      invariant 0 <= i <= |d|
      invariant r == command + LongOptions(d[..i])
    {
      LongOptionsAppend(d[..i], d[i]);
      assert d[..i + 1] == d[..i] + [d[i]];
      r := r + ["--" + Assignment(d[i].0, d[i].1)];
      i := i + 1;
    }
    assert d[..|d|] == d;
  }

  /** `command.extend(["-i", path])` for each init script. */
  method AppendInits(command: seq<string>, paths: seq<string>) returns (r: seq<string>)
    ensures r == command + InitOptions(paths)
  {
    r := command;
    var i := 0;
    while i < |paths|
      invariant 0 <= i <= |paths|
      invariant r == command + InitOptions(paths[..i])
    {
      InitOptionsAppend(paths[..i], paths[i]);
      assert paths[..i + 1] == paths[..i] + [paths[i]];
      r := r + ["-i", paths[i]];
      i := i + 1;
    }
    assert paths[..|paths|] == paths;
  }

  /** The constructors: a task, or the `ValueError` of one whose settings give nothing to run. */
  method NewTask(id: string, spec: TaskSpec, params: Dict, config: Dict) returns (r: Result<Task, string>)
    requires DistinctKeys(params) && DistinctKeys(config)
    ensures r.Failure? <==> ConstructionError(spec).Some?
    ensures r.Failure? ==> r.error == ConstructionError(spec).value
    ensures r.Success? ==>
      (fresh(r.value) && r.value.Valid() && r.value.taskId == id
       && r.value.spec == spec && r.value.params == params && r.value.config == config)
  {
    match ConstructionError(spec)
    case Some(e) =>
      return Failure(e);
    case None =>
      ConstructionErrorSpec(spec);
      var t := new Task(id, spec, params, config);
      return Success(t);
  }
}
