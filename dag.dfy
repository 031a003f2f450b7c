/**
 * The `DAG` class of `scheduler/dag.py`: task registration, edges kept in
 * a forward and a reverse map, the level-by-level topological sort of
 * Kahn's algorithm with its count-based cycle check, and the two
 * breadth-first closure searches.
 */
module Dag {
  import opened Outcomes
  import opened Graph
  import opened Params
  import opened Tasks

  /** The `ValueError`s of `scheduler/dag.py`. */
  datatype DagError =
    | UnknownUpstream(id: string)
    | UnknownDownstream(id: string)
    | Cycle
    | UnknownTask(id: string)
    | UnknownStart(id: string)
    | UnknownEnd(id: string)

  // ---------------------------------------------------------------------
  // Kahn's algorithm

  /** `in_degree` holds, for every node, how many of its dependencies are not yet placed. */
  ghost predicate Counts(inDegree: map<string, int>, nodes: set<string>, deps: Adjacency, placed: set<string>)
  {
    inDegree.Keys == nodes && forall x {:trigger inDegree[x]} :: x in nodes ==> inDegree[x] == |Succ(deps, x) - placed|
  }

  lemma CountStep(s: set<string>, placed: set<string>, t: string)
    requires t !in placed
    ensures |s - (placed + {t})| == |s - placed| - (if t in s then 1 else 0)
  {
    if t in s {
      assert s - placed == (s - (placed + {t})) + {t};
    } else {
      assert s - (placed + {t}) == s - placed;
    }
  }

  lemma EmptyDifference(s: set<string>, placed: set<string>)
    ensures |s - placed| == 0 <==> s <= placed
  {
    if s <= placed {
      assert s - placed == {};
    } else {
      var y :| y in s && y !in placed;
      assert y in s - placed;
    }
  }

  /** `x` lists `t` among its dependencies. */
  predicate DependsOn(deps: Adjacency, x: string, t: string)
  {
    t in Succ(deps, x)
  }

  /** A node that the level `p` made ready: some dependency in `p`, all placed. */
  ghost predicate MadeReady(nodes: set<string>, deps: Adjacency, done: set<string>, p: set<string>, x: string)
  {
    x in nodes && Succ(deps, x) * p != {} && Succ(deps, x) <= done + p
  }

  /** One dependent of `t` loses one from its count. */
  lemma ReleaseStep(inDegree: map<string, int>, nodes: set<string>, deps: Adjacency, placed: set<string>,
                    seen: set<string>, t: string, x: string)
    requires t !in placed && x in nodes && x !in seen && t in Succ(deps, x)
    requires inDegree.Keys == nodes
    requires forall y {:trigger inDegree[y]} :: y in nodes ==> inDegree[y] == |Succ(deps, y) - placed| - (if y in seen then 1 else 0)
    ensures var d := inDegree[x := inDegree[x] - 1];
      d.Keys == nodes &&
      (forall y :: y in nodes ==> d[y] == |Succ(deps, y) - placed| - (if y in seen + {x} then 1 else 0)) &&
      (d[x] == 0 <==> Succ(deps, x) <= placed + {t})
  {
    CountStep(Succ(deps, x), placed, t);
    EmptyDifference(Succ(deps, x), placed + {t});
  }

  /**
   * The inner loop of `topological_sort` for one task: each node that
   * depends on `t` loses one from its count and joins the queue when its
   * count reaches 0.  Python iterates the set in an order of its own; any
   * order is allowed here.
   */
  method ReleaseDependents(t: string, inDegree: map<string, int>, rdeps: Adjacency,
                           ghost nodes: set<string>, ghost deps: Adjacency, ghost placed: set<string>)
    returns (inDegree': map<string, int>, added: seq<string>)
    requires t in nodes && t !in placed && Counts(inDegree, nodes, deps, placed)
    requires ListsDependents(nodes, deps, rdeps, t)
    ensures Counts(inDegree', nodes, deps, placed + {t})
    ensures Distinct(added)
    ensures forall x :: x in added <==> x in Succ(rdeps, t) && Succ(deps, x) <= placed + {t}
  {
    inDegree' := inDegree;
    added := [];
    var rest := Succ(rdeps, t);
    ghost var seen: set<string> := {};
    while rest != {}
      invariant forall y :: y in Succ(rdeps, t) <==> y in rest || y in seen
      invariant forall y :: y in rest ==> y !in seen
      invariant inDegree'.Keys == nodes
      invariant forall x {:trigger inDegree'[x]} :: x in nodes ==> inDegree'[x] == |Succ(deps, x) - placed| - (if x in seen then 1 else 0)
      invariant Distinct(added)
      invariant forall x :: x in added <==> x in seen && Unblocked(deps, placed + {t}, x)
      decreases rest
    {
      var x :| x in rest;
      assert DependsOn(deps, x, t);
      ReleaseStep(inDegree', nodes, deps, placed, seen, t, x);
      inDegree' := inDegree'[x := inDegree'[x] - 1];
      ghost var added0 := added;
      if inDegree'[x] == 0 {
        added := added + [x];
      }
      AddedStep(added0, seen, x, deps, placed + {t}, added);
      rest := rest - {x};
      seen := seen + {x};
    }
    ReleaseDone(inDegree', nodes, deps, placed, seen, t);
  }

  /** Every dependency of `x` is placed. */
  ghost predicate Unblocked(deps: Adjacency, placed: set<string>, x: string)
  {
    Succ(deps, x) <= placed
  }

  /** Appending a newly seen node exactly when it is ready keeps `added` the ready seen nodes. */
  lemma AddedStep(added: seq<string>, seen: set<string>, x: string, deps: Adjacency, placed: set<string>,
                  added': seq<string>)
    requires Distinct(added) && x !in seen
    requires forall y :: y in added <==> y in seen && Unblocked(deps, placed, y)
    requires added' == if Unblocked(deps, placed, x) then added + [x] else added
    ensures Distinct(added')
    ensures forall y :: y in added' <==> y in seen + {x} && Unblocked(deps, placed, y)
  {
  }

  /** Once every dependent of `t` is seen, the counts are those after placing `t`. */
  lemma ReleaseDone(inDegree: map<string, int>, nodes: set<string>, deps: Adjacency, placed: set<string>,
                    seen: set<string>, t: string)
    requires t !in placed && inDegree.Keys == nodes
    requires forall x :: x in seen <==> x in nodes && DependsOn(deps, x, t)
    requires forall y {:trigger inDegree[y]} :: y in nodes ==> inDegree[y] == |Succ(deps, y) - placed| - (if y in seen then 1 else 0)
    ensures Counts(inDegree, nodes, deps, placed + {t})
  {
    forall x | x in nodes ensures inDegree[x] == |Succ(deps, x) - (placed + {t})| {
      CountStep(Succ(deps, x), placed, t);
    }
  }

  /** The reverse map lists exactly the dependents of `t`. */
  ghost predicate ListsDependents(nodes: set<string>, deps: Adjacency, rdeps: Adjacency, t: string)
  {
    forall x :: x in Succ(rdeps, t) <==> x in nodes && DependsOn(deps, x, t)
  }

  lemma Dependents(nodes: set<string>, deps: Adjacency, rdeps: Adjacency, t: string)
    requires Mirror(deps, rdeps) && Within(rdeps, nodes)
    ensures ListsDependents(nodes, deps, rdeps, t)
  {
    forall x | x in Succ(rdeps, t) ensures x in nodes {
      assert t in rdeps && x in rdeps[t];
    }
  }

  lemma MadeReadyStep(nodes: set<string>, deps: Adjacency, rdeps: Adjacency, done: set<string>, p: set<string>, t: string)
    requires ListsDependents(nodes, deps, rdeps, t) && t !in done + p
    ensures forall x :: MadeReady(nodes, deps, done, p + {t}, x) <==>
      MadeReady(nodes, deps, done, p, x) || (x in Succ(rdeps, t) && Succ(deps, x) <= done + p + {t})
    ensures forall x :: x in Succ(rdeps, t) ==> !MadeReady(nodes, deps, done, p, x)
  {
    assert done + (p + {t}) == done + p + {t};
    forall x | MadeReady(nodes, deps, done, p + {t}, x) && x !in Succ(rdeps, t)
      ensures MadeReady(nodes, deps, done, p, x)
    {
      assert !DependsOn(deps, x, t);
      assert Succ(deps, x) * (p + {t}) == Succ(deps, x) * p;
    }
    forall x | x in Succ(rdeps, t) && Succ(deps, x) <= done + p + {t}
      ensures MadeReady(nodes, deps, done, p + {t}, x)
    {
      assert DependsOn(deps, x, t);
      assert t in Succ(deps, x) * (p + {t});
    }
    forall x | MadeReady(nodes, deps, done, p, x) ensures MadeReady(nodes, deps, done, p + {t}, x) {
      var u :| u in Succ(deps, x) * p;
      assert u in Succ(deps, x) * (p + {t});
    }
    forall x | x in Succ(rdeps, t) ensures !MadeReady(nodes, deps, done, p, x) {
      assert DependsOn(deps, x, t);
    }
  }

  lemma MadeReadyIsReady(nodes: set<string>, deps: Adjacency, done: set<string>)
    requires done <= nodes && Closed(deps, done)
    ensures forall x :: MadeReady(nodes, deps, done, Ready(nodes, deps, done), x) <==>
      x in Ready(nodes, deps, done + Ready(nodes, deps, done))
  {
    var r := Ready(nodes, deps, done);
    forall x | MadeReady(nodes, deps, done, r, x) ensures x in Ready(nodes, deps, done + r) {
      var u :| u in Succ(deps, x) * r;
      assert u !in done;
      assert x in done ==> Succ(deps, x) <= done;
      assert x in r ==> Succ(deps, x) <= done;
    }
    forall x | x in Ready(nodes, deps, done + r) ensures MadeReady(nodes, deps, done, r, x) {
      assert x !in r && x in nodes && x !in done;
      assert !(Succ(deps, x) <= done);
      var u :| u in Succ(deps, x) && u !in done;
      assert u in Succ(deps, x) * r;
    }
  }

  /** One task of the level releases its dependents; the queue grows by those made ready. */
  method DrainOne(t: string, inDegree: map<string, int>, queue: seq<string>, rdeps: Adjacency,
                  ghost nodes: set<string>, ghost deps: Adjacency, ghost done: set<string>, ghost p: set<string>)
    returns (inDegree': map<string, int>, queue': seq<string>)
    requires t in nodes && t !in done + p && Counts(inDegree, nodes, deps, done + p)
    requires ListsDependents(nodes, deps, rdeps, t)
    requires Distinct(queue) && forall x {:trigger x in queue} :: x in queue <==> MadeReady(nodes, deps, done, p, x)
    ensures Counts(inDegree', nodes, deps, done + p + {t})
    ensures Distinct(queue') && forall x :: x in queue' <==> MadeReady(nodes, deps, done, p + {t}, x)
  {
    var added;
    inDegree', added := ReleaseDependents(t, inDegree, rdeps, nodes, deps, done + p);
    QueueStep(queue, added, nodes, deps, rdeps, done, p, t);
    queue' := queue + added;
  }

  /** The dependents released by `t` extend the queue without repetition. */
  lemma QueueStep(queue: seq<string>, added: seq<string>, nodes: set<string>, deps: Adjacency, rdeps: Adjacency,
                  done: set<string>, p: set<string>, t: string)
    requires ListsDependents(nodes, deps, rdeps, t) && t !in done + p
    requires Distinct(queue) && forall x :: x in queue <==> MadeReady(nodes, deps, done, p, x)
    requires Distinct(added) && forall x :: x in added <==> x in Succ(rdeps, t) && Succ(deps, x) <= done + p + {t}
    ensures Distinct(queue + added) && forall x :: x in queue + added <==> MadeReady(nodes, deps, done, p + {t}, x)
  {
    MadeReadyStep(nodes, deps, rdeps, done, p, t);
    DistinctAppend(queue, added);
  }

  /**
   * Drains one level: every task of it releases its dependents, in level
   * order.  The new queue is exactly the next level.
   */
  method DrainLevel(level: seq<string>, inDegree: map<string, int>, rdeps: Adjacency,
                    ghost nodes: set<string>, ghost deps: Adjacency, ghost done: set<string>)
    returns (inDegree': map<string, int>, queue: seq<string>)
    requires Distinct(level) && SetOf(level) == Ready(nodes, deps, done)
    requires done <= nodes && Closed(deps, done) && Counts(inDegree, nodes, deps, done)
    requires Within(rdeps, nodes) && Mirror(deps, rdeps)
    ensures Counts(inDegree', nodes, deps, done + SetOf(level))
    ensures Distinct(queue) && SetOf(queue) == Ready(nodes, deps, done + SetOf(level))
  {
    inDegree' := inDegree;
    queue := [];
    var i := 0;
    ghost var p: set<string> := {};
    PrefixZero(level);
    while i < |level|
      invariant 0 <= i <= |level| && p == SetOf(level[..i])
      invariant Counts(inDegree', nodes, deps, done + p)
      invariant Distinct(queue)
      invariant forall x :: x in queue <==> MadeReady(nodes, deps, done, p, x)
    {
      var t := level[i];
      PrefixStep(level, i);
      Dependents(nodes, deps, rdeps, t);
      inDegree', queue := DrainOne(t, inDegree', queue, rdeps, nodes, deps, done, p);
      UnionAssoc(done, p, {t});
      i := i + 1;
      p := p + {t};
    }
    assert level[..|level|] == level;
    DrainedIsReady(queue, nodes, deps, done);
  }

  /** What a drained level leaves in the queue is the next level. */
  lemma DrainedIsReady(queue: seq<string>, nodes: set<string>, deps: Adjacency, done: set<string>)
    requires done <= nodes && Closed(deps, done)
    requires forall x :: x in queue <==> MadeReady(nodes, deps, done, Ready(nodes, deps, done), x)
    ensures SetOf(queue) == Ready(nodes, deps, done + Ready(nodes, deps, done))
  {
    MadeReadyIsReady(nodes, deps, done);
  }

  /** The tasks without dependencies, in registration order: the first queue. */
  function Sources(order: seq<string>, deps: Adjacency): (r: seq<string>)
    ensures forall x :: x in r <==> x in order && Succ(deps, x) == {}
  {
    if |order| == 0 then []
    else (if Succ(deps, order[0]) == {} then [order[0]] else []) + Sources(order[1..], deps)
  }

  lemma {:induction false} SourcesDistinct(order: seq<string>, deps: Adjacency)
    requires Distinct(order)
    ensures Distinct(Sources(order, deps))
  {
    if |order| > 0 {
      assert Distinct(order[1..]);
      SourcesDistinct(order[1..], deps);
      assert order[0] !in order[1..];
    }
  }

  lemma SumLengthsAppend(levels: seq<seq<string>>, level: seq<string>)
    ensures SumLengths(levels + [level]) == SumLengths(levels) + |level|
  {
    assert (levels + [level])[..|levels|] == levels;
  }

  /** The loop invariant of `topological_sort`'s outer loop. */
  ghost predicate KahnState(nodes: set<string>, deps: Adjacency, levels: seq<seq<string>>, done: set<string>)
  {
    done <= nodes && Closed(deps, done) &&
    Levels(nodes, deps) == LevelSets(levels) + LevelsFrom(nodes, deps, done) &&
    UnionAll(LevelSets(levels)) == done && SumLengths(levels) == |done| &&
    (forall k :: 0 <= k < |levels| ==> Distinct(levels[k]))
  }

  /** Appending the ready queue as a level keeps the invariant and shrinks what is left. */
  lemma KahnStep(nodes: set<string>, deps: Adjacency, levels: seq<seq<string>>, done: set<string>, current: seq<string>)
    requires KahnState(nodes, deps, levels, done)
    requires Distinct(current) && SetOf(current) == Ready(nodes, deps, done) && |current| > 0
    ensures KahnState(nodes, deps, levels + [current], done + SetOf(current))
    ensures |nodes - (done + SetOf(current))| < |nodes - done|
  {
    assert current[0] in SetOf(current);
    LevelsFromStep(nodes, deps, done);
    ReadyStep(nodes, deps, done);
    KahnLevelsStep(nodes, deps, levels, done, current);
    KahnCountStep(levels, done, current);
    assert (levels + [current])[|levels|] == current;
  }

  lemma KahnLevelsStep(nodes: set<string>, deps: Adjacency, levels: seq<seq<string>>, done: set<string>, current: seq<string>)
    requires done <= nodes && Levels(nodes, deps) == LevelSets(levels) + LevelsFrom(nodes, deps, done)
    requires SetOf(current) == Ready(nodes, deps, done) && |current| > 0
    ensures done + SetOf(current) <= nodes
    ensures Levels(nodes, deps) == LevelSets(levels + [current]) + LevelsFrom(nodes, deps, done + SetOf(current))
  {
    var r := SetOf(current);
    assert current[0] in r;
    LevelsFromStep(nodes, deps, done);
    LevelSetsAppend(levels, current);
    AppendAssoc(LevelSets(levels), r, LevelsFrom(nodes, deps, done + r));
  }

  lemma KahnCountStep(levels: seq<seq<string>>, done: set<string>, current: seq<string>)
    requires UnionAll(LevelSets(levels)) == done && SumLengths(levels) == |done|
    requires Distinct(current) && |done + SetOf(current)| == |done| + |SetOf(current)|
    ensures UnionAll(LevelSets(levels + [current])) == done + SetOf(current)
    ensures SumLengths(levels + [current]) == |done + SetOf(current)|
  {
    LevelSetsAppend(levels, current);
    UnionAllAppend(LevelSets(levels), SetOf(current));
    SumLengthsAppend(levels, current);
    DistinctCard(current);
  }

  /** The first loop of `topological_sort`: a count for every task. */
  method InitialDegrees(order: seq<string>, ghost nodes: set<string>, deps: Adjacency)
    returns (inDegree: map<string, int>)
    requires SetOf(order) == nodes && Within(deps, nodes)
    ensures Counts(inDegree, nodes, deps, {})
  {
    // in_degree: the dependency counts, then 0 for the tasks without an entry
    inDegree := map x | x in deps :: |deps[x]|;
    var i := 0;
    while i < |order|
      invariant 0 <= i <= |order|
      invariant forall x :: x in inDegree <==> x in deps || x in order[..i]
      invariant forall x :: x in inDegree ==> inDegree[x] == |Succ(deps, x)|
    {
      if order[i] !in inDegree {
        inDegree := inDegree[order[i] := 0];
      }
      assert order[..i + 1] == order[..i] + [order[i]];
      i := i + 1;
    }
    assert order[..|order|] == order;
    forall x | x in nodes ensures inDegree[x] == |Succ(deps, x) - {}| {
      assert Succ(deps, x) - {} == Succ(deps, x);
    }
  }

  /**
   * `topological_sort` up to the cycle check: the levels it builds are the
   * levels of the graph, each without repetition.
   */
  method Kahn(order: seq<string>, ghost nodes: set<string>, deps: Adjacency, rdeps: Adjacency)
    returns (levels: seq<seq<string>>)
    requires Distinct(order) && SetOf(order) == nodes
    requires Within(deps, nodes) && Within(rdeps, nodes) && Mirror(deps, rdeps)
    ensures LevelSets(levels) == Levels(nodes, deps)
    ensures forall k :: 0 <= k < |levels| ==> Distinct(levels[k])
    ensures SumLengths(levels) == |UnionAll(Levels(nodes, deps))|
    ensures |levels| > 0 ==> levels[0] == Sources(order, deps)
  {
    var inDegree := InitialDegrees(order, nodes, deps);
    var queue := Sources(order, deps);
    SourcesDistinct(order, deps);
    SourcesReady(order, nodes, deps);
    levels := [];
    ghost var done: set<string> := {};
    KahnInit(nodes, deps);
    while |queue| > 0
      invariant KahnState(nodes, deps, levels, done) && Counts(inDegree, nodes, deps, done)
      invariant Distinct(queue) && SetOf(queue) == Ready(nodes, deps, done)
      invariant |levels| > 0 ==> levels[0] == Sources(order, deps)
      invariant |levels| == 0 ==> queue == Sources(order, deps)
      decreases |nodes - done|
    {
      var current := queue;
      KahnStep(nodes, deps, levels, done, current);
      levels := levels + [current];
      inDegree, queue := DrainLevel(current, inDegree, rdeps, nodes, deps, done);
      done := done + SetOf(current);
    }
    KahnEnd(nodes, deps, levels, done);
  }

  lemma SourcesReady(order: seq<string>, nodes: set<string>, deps: Adjacency)
    requires SetOf(order) == nodes
    ensures SetOf(Sources(order, deps)) == Ready(nodes, deps, {})
  {
  }

  lemma KahnInit(nodes: set<string>, deps: Adjacency)
    ensures KahnState(nodes, deps, [], {})
  {
    assert LevelSets([]) == [];
  }

  lemma KahnEnd(nodes: set<string>, deps: Adjacency, levels: seq<seq<string>>, done: set<string>)
    requires KahnState(nodes, deps, levels, done) && Ready(nodes, deps, done) == {}
    ensures LevelSets(levels) == Levels(nodes, deps)
    ensures SumLengths(levels) == |UnionAll(Levels(nodes, deps))|
  {
    assert LevelsFrom(nodes, deps, done) == [];
    assert LevelSets(levels) + [] == LevelSets(levels);
  }

  // ---------------------------------------------------------------------
  // Breadth-first closure

  /** The nodes that appear as neighbours. */
  function Targets(adj: Adjacency): set<string>
  {
    set x, y | x in adj && y in adj[x] :: y
  }

  /** The queue entries already visited: they will bring nothing new. */
  function StaleCount(queue: seq<string>, visited: set<string>): nat
  {
    if |queue| == 0 then 0
    else (if queue[0] in visited then 1 else 0) + StaleCount(queue[1..], visited)
  }

  lemma {:induction false} StaleCountAppend(a: seq<string>, b: seq<string>, visited: set<string>)
    ensures StaleCount(a + b, visited) == StaleCount(a, visited) + StaleCount(b, visited)
  {
    if |a| == 0 {
      assert a + b == b;
    } else {
      assert (a + b)[1..] == a[1..] + b;
      StaleCountAppend(a[1..], b, visited);
    }
  }

  lemma {:induction false} StaleCountGrow(queue: seq<string>, visited: set<string>, v: string)
    ensures StaleCount(queue, visited) <= StaleCount(queue, visited + {v})
  {
    if |queue| > 0 {
      StaleCountGrow(queue[1..], visited, v);
    }
  }

  lemma {:induction false} NoStale(a: seq<string>, visited: set<string>)
    requires forall x :: x in a ==> x !in visited
    ensures StaleCount(a, visited) == 0
  {
    if |a| > 0 {
      assert a[0] in a;
      NoStale(a[1..], visited);
    }
  }

  /**
   * The inner loop of the closure searches: every neighbour of `current`
   * is recorded, and queued unless already visited.
   */
  method VisitNeighbours(adj: Adjacency, current: string, queue: seq<string>, visited: set<string>,
                         result: set<string>)
    returns (queue': seq<string>, result': set<string>, ghost appended: seq<string>)
    ensures forall y :: y in result' <==> y in result || y in Succ(adj, current)
    ensures queue' == queue + appended
    ensures forall a :: a in appended ==> a in Succ(adj, current) && a !in visited
    ensures forall y :: y in Succ(adj, current) ==> y in visited || y in appended
  {
    queue', result', appended := queue, result, [];
    var rest := Succ(adj, current);
    while rest != {}
      invariant rest <= Succ(adj, current)
      invariant forall y :: y in result' <==> y in result || y in Succ(adj, current) - rest
      invariant queue' == queue + appended
      invariant forall a :: a in appended ==> a in Succ(adj, current) && a !in visited
      invariant forall y :: y in Succ(adj, current) - rest ==> y in visited || y in appended
      decreases rest
    {
      var d :| d in rest;
      result' := result' + {d};
      if d !in visited {
        queue' := queue' + [d];
        appended := appended + [d];
      }
      rest := rest - {d};
    }
  }

  /** The loop invariant of the closure searches. */
  ghost predicate ClosureState(adj: Adjacency, start: string, queue: seq<string>, visited: set<string>, result: set<string>)
  {
    (forall q :: q in queue ==> q == start || q in result) &&
    (forall v :: v in visited ==> Succ(adj, v) <= result) &&
    (forall y :: y in result ==> y in visited || y in queue) &&
    (start in visited || start in queue) &&
    (forall y :: y in result ==> Reaches(adj, start, y))
  }

  lemma ClosureStep(adj: Adjacency, start: string, current: string, q1: seq<string>, visited: set<string>,
                    result: set<string>, queue': seq<string>, result': set<string>, appended: seq<string>)
    requires ClosureState(adj, start, [current] + q1, visited, result)
    requires forall y :: y in result' <==> y in result || y in Succ(adj, current)
    requires queue' == q1 + appended
    requires forall a :: a in appended ==> a in Succ(adj, current) && a !in visited + {current}
    requires forall y :: y in Succ(adj, current) ==> y in visited + {current} || y in appended
    requires result <= Targets(adj)
    ensures ClosureState(adj, start, queue', visited + {current}, result')
    ensures result' <= Targets(adj)
  {
    SuccTargets(adj, current);
    assert current in [current] + q1;
    forall y | y in Succ(adj, current) ensures Reaches(adj, start, y) {
      ReachesStep(adj, start, current, y);
    }
    forall q | q in q1 ensures q == start || q in result {
      assert q in [current] + q1;
    }
    forall y | y in result ensures y in visited + {current} || y in queue' {
      assert y in visited || y in [current] + q1;
    }
  }

  /** A pop either visits a new node or removes a stale queue entry. */
  lemma ClosureDecreases(universe: set<string>, current: string, q1: seq<string>, appended: seq<string>,
                         visited: set<string>)
    requires current in universe
    requires forall a :: a in appended ==> a !in visited + {current}
    ensures var visited' := visited + {current};
      |universe - visited'| < |universe - visited| ||
      (|universe - visited'| == |universe - visited| &&
       StaleCount(q1 + appended, visited') < StaleCount([current] + q1, visited))
  {
    var visited' := visited + {current};
    if current in visited {
      assert visited' == visited;
      assert ([current] + q1)[1..] == q1;
      StaleCountAppend(q1, appended, visited');
      NoStale(appended, visited');
    } else {
      assert universe - visited == (universe - visited') + {current};
    }
  }

  /**
   * The body of `_get_downstream_tasks` and `_get_upstream_tasks`: a queue
   * and a visited set, every neighbour of a popped node recorded, and
   * queued again unless already visited (so a node may sit in the queue
   * more than once).  The result is everything reachable in one or more
   * steps; the start itself only when it lies on a cycle.
   */
  method Closure(adj: Adjacency, start: string) returns (result: set<string>)
    ensures forall y :: y in result <==> Reaches(adj, start, y)
  {
    ghost var universe := {start} + Targets(adj);
    result := {};
    var queue := [start];
    var visited: set<string> := {};
    while |queue| > 0
      invariant visited <= universe && result <= Targets(adj)
      invariant ClosureState(adj, start, queue, visited, result)
      decreases |universe - visited|, StaleCount(queue, visited)
    {
      var current := queue[0];
      var q1 := queue[1..];
      assert queue == [current] + q1;
      QueuedInUniverse(adj, start, queue, visited, result);
      var queue', result', appended := VisitNeighbours(adj, current, q1, visited + {current}, result);
      ClosureStep(adj, start, current, q1, visited, result, queue', result', appended);
      ClosureDecreases(universe, current, q1, appended, visited);
      queue, result, visited := queue', result', visited + {current};
    }
    ClosureComplete(adj, start, visited, result);
  }

  /** Every queued node is the start or a target of some edge. */
  lemma QueuedInUniverse(adj: Adjacency, start: string, queue: seq<string>, visited: set<string>, result: set<string>)
    requires |queue| > 0 && result <= Targets(adj) && visited <= {start} + Targets(adj)
    requires ClosureState(adj, start, queue, visited, result)
    ensures queue[0] in {start} + Targets(adj)
    ensures visited + {queue[0]} <= {start} + Targets(adj)
  {
    assert queue[0] in queue;
  }

  lemma SuccTargets(adj: Adjacency, x: string)
    ensures Succ(adj, x) <= Targets(adj)
  {
    forall y | y in Succ(adj, x) ensures y in Targets(adj) {
      assert x in adj && y in adj[x];
    }
  }

  /** With the queue empty, the result holds every node reachable from the start. */
  lemma ClosureComplete(adj: Adjacency, start: string, visited: set<string>, result: set<string>)
    requires ClosureState(adj, start, [], visited, result)
    ensures forall y :: Reaches(adj, start, y) ==> y in result
  {
    forall y | Reaches(adj, start, y) ensures y in result {
      var p :| |p| >= 2 && p[0] == start && p[|p| - 1] == y && Path(adj, p);
      ClosedHoldsReachable(adj, p, result);
    }
  }

  // ---------------------------------------------------------------------
  // The DAG

  /**
   * `DAG`: the tasks by id, in registration order, the dependencies of
   * each task and, turned round, the tasks that depend on each task, and
   * the DAG-level parameter manager.
   */
  class Dag {
    const name: string
    var tasks: map<string, Task>
    /** The insertion order of the `tasks` dictionary. */
    var order: seq<string>
    var dependencies: Adjacency
    var reverseDependencies: Adjacency
    const paramManager: ParamManager

    ghost predicate Valid()
      reads this
    {
      Distinct(order) && SetOf(order) == tasks.Keys &&
      (forall id :: id in tasks ==> tasks[id].taskId == id) &&
      Within(dependencies, tasks.Keys) && Within(reverseDependencies, tasks.Keys) &&
      Mirror(dependencies, reverseDependencies)
    }

    constructor(name: string)
      ensures Valid() && this.name == name
      ensures tasks == map[] && order == [] && dependencies == map[] && reverseDependencies == map[]
      ensures fresh(paramManager) && paramManager.params == map[]
    {
      this.name := name;
      tasks := map[];
      order := [];
      dependencies := map[];
      reverseDependencies := map[];
      paramManager := new ParamManager();
    }

    /** `add_task`: a task with a known id replaces the old one in its place. */
    method AddTask(task: Task)
      requires Valid()
      modifies this
      ensures Valid()
      ensures tasks == old(tasks)[task.taskId := task]
      ensures order == if task.taskId in old(tasks) then old(order) else old(order) + [task.taskId]
      ensures dependencies == old(dependencies) && reverseDependencies == old(reverseDependencies)
    {
      if task.taskId !in tasks {
        DistinctAppend(order, [task.taskId]);
        order := order + [task.taskId];
      }
      tasks := tasks[task.taskId := task];
    }

    /** `get_task`. */
    function GetTask(id: string): (r: Result<Task, DagError>)
      reads this
      ensures r.Success? <==> id in tasks
      ensures r.Success? ==> r.value == tasks[id]
      ensures r.Failure? ==> r.error == UnknownTask(id)
    {
      if id in tasks then Success(tasks[id]) else Failure(UnknownTask(id))
    }

    /**
     * `set_dependency`: the upstream id is checked first, then the
     * downstream id; on success the edge is added to both maps.
     */
    method SetDependency(upstream: string, downstream: string) returns (err: Option<DagError>)
      requires Valid()
      modifies this
      ensures Valid() && tasks == old(tasks) && order == old(order)
      ensures upstream !in tasks ==> err == Some(UnknownUpstream(upstream))
      ensures upstream in tasks && downstream !in tasks ==> err == Some(UnknownDownstream(downstream))
      ensures err.None? <==> upstream in tasks && downstream in tasks
      ensures err.Some? ==> dependencies == old(dependencies) && reverseDependencies == old(reverseDependencies)
      ensures err.None? ==> dependencies == old(dependencies)[downstream := Succ(old(dependencies), downstream) + {upstream}]
      ensures err.None? ==> reverseDependencies == old(reverseDependencies)[upstream := Succ(old(reverseDependencies), upstream) + {downstream}]
    {
      if upstream !in tasks {
        return Some(UnknownUpstream(upstream));
      }
      if downstream !in tasks {
        return Some(UnknownDownstream(downstream));
      }
      ghost var d0, r0 := dependencies, reverseDependencies;
      dependencies := dependencies[downstream := Succ(dependencies, downstream) + {upstream}];
      reverseDependencies := reverseDependencies[upstream := Succ(reverseDependencies, upstream) + {downstream}];
      AddEdgeMirror(d0, r0, upstream, downstream);
      err := None;
    }

    /** `set_upstream`: `upstream` becomes a dependency of `id`. */
    method SetUpstream(id: string, upstream: string) returns (err: Option<DagError>)
      requires Valid()
      modifies this
      ensures Valid() && tasks == old(tasks) && order == old(order)
      ensures err.None? <==> upstream in tasks && id in tasks
      ensures err.None? ==> upstream in Succ(dependencies, id) && id in Succ(reverseDependencies, upstream)
    {
      err := SetDependency(upstream, id);
    }

    /** `set_downstream`: `id` becomes a dependency of `downstream`. */
    method SetDownstream(id: string, downstream: string) returns (err: Option<DagError>)
      requires Valid()
      modifies this
      ensures Valid() && tasks == old(tasks) && order == old(order)
      ensures err.None? <==> id in tasks && downstream in tasks
      ensures err.None? ==> id in Succ(dependencies, downstream) && downstream in Succ(reverseDependencies, id)
    {
      err := SetDependency(id, downstream);
    }

    /** `set_params`: merged into the DAG's parameter manager. */
    method SetParams(p: Store)
      modifies paramManager
      ensures paramManager.params == old(paramManager.params) + p
    {
      paramManager.SetParams(p);
    }

    /**
     * `get_dependencies`: the edges from each upstream task to the tasks
     * that depend on it, leaving out tasks without dependents.
     */
    function GetDependencies(): (r: Adjacency)
      requires Valid()
      reads this
      ensures forall u :: u in r ==> r[u] != {}
      ensures forall u, d :: d in Succ(r, u) <==> u in Succ(dependencies, d)
    {
      var r := map u | u in reverseDependencies && reverseDependencies[u] != {} :: reverseDependencies[u];
      assert forall u :: Succ(r, u) == Succ(reverseDependencies, u);
      r
    }

    /**
     * `topological_sort`: the levels of Kahn's algorithm, the first in
     * registration order, or the cycle error when the levels do not place
     * every task.
     */
    method TopologicalSort() returns (r: Result<seq<seq<string>>, DagError>)
      requires Valid()
      ensures r.Failure? <==> HasCycle(tasks.Keys, dependencies)
      ensures r.Failure? ==> r.error == Cycle
      ensures r.Success? ==> LevelSets(r.value) == Levels(tasks.Keys, dependencies)
      ensures r.Success? ==> IsLayering(tasks.Keys, dependencies, LevelSets(r.value))
      ensures r.Success? ==> forall k :: 0 <= k < |r.value| ==> Distinct(r.value[k])
      ensures r.Success? && |r.value| > 0 ==> r.value[0] == Sources(order, dependencies)
    {
      var levels := Kahn(order, tasks.Keys, dependencies, reverseDependencies);
      SortCheck(order, tasks.Keys, dependencies, levels);
      if SumLengths(levels) != |order| {
        return Failure(Cycle);
      }
      r := Success(levels);
    }

    /** `_get_downstream_tasks`: the tasks that depend on `id`, directly or not. */
    method Downstream(id: string) returns (r: set<string>)
      requires Valid()
      ensures forall y :: y in r <==> Reaches(reverseDependencies, id, y)
      ensures forall y :: y in r <==> Reaches(dependencies, y, id)
    {
      r := Closure(reverseDependencies, id);
      forall y ensures Reaches(reverseDependencies, id, y) <==> Reaches(dependencies, y, id) {
        ReachesMirror(dependencies, reverseDependencies, id, y);
      }
    }

    /** `_get_upstream_tasks`: the tasks `id` depends on, directly or not. */
    method Upstream(id: string) returns (r: set<string>)
      requires Valid()
      ensures forall y :: y in r <==> Reaches(dependencies, id, y)
      ensures forall y :: y in r <==> Reaches(reverseDependencies, y, id)
    {
      r := Closure(dependencies, id);
      forall y ensures Reaches(dependencies, id, y) <==> Reaches(reverseDependencies, y, id) {
        ReachesMirror(dependencies, reverseDependencies, y, id);
      }
    }
  }

  /** Adding one edge to both maps keeps them mirror images. */
  lemma AddEdgeMirror(deps: Adjacency, rdeps: Adjacency, up: string, down: string)
    requires Mirror(deps, rdeps)
    ensures Mirror(deps[down := Succ(deps, down) + {up}], rdeps[up := Succ(rdeps, up) + {down}])
  {
    var d := deps[down := Succ(deps, down) + {up}];
    var r := rdeps[up := Succ(rdeps, up) + {down}];
    forall x, u ensures u in Succ(d, x) <==> x in Succ(r, u) {
      assert Succ(d, x) == if x == down then Succ(deps, down) + {up} else Succ(deps, x);
      assert Succ(r, u) == if u == up then Succ(rdeps, up) + {down} else Succ(rdeps, u);
    }
  }

  /**
   * The count check of `topological_sort`: the levels place as many tasks
   * as there are exactly when the graph has no cycle, and then they layer
   * the graph.
   */
  lemma SortCheck(order: seq<string>, nodes: set<string>, deps: Adjacency, levels: seq<seq<string>>)
    requires Distinct(order) && SetOf(order) == nodes && Within(deps, nodes)
    requires LevelSets(levels) == Levels(nodes, deps) && SumLengths(levels) == |UnionAll(Levels(nodes, deps))|
    ensures SumLengths(levels) == |order| <==> !HasCycle(nodes, deps)
    ensures SumLengths(levels) == |order| ==> IsLayering(nodes, deps, LevelSets(levels))
  {
    DistinctCard(order);
    LevelsCoverIffAcyclic(nodes, deps);
    LevelsWithin(nodes, deps);
    SubsetCard(UnionAll(Levels(nodes, deps)), nodes);
    if !HasCycle(nodes, deps) {
      LevelsLayer(nodes, deps);
    }
  }
}
