/**
 * The dependency graph as values: adjacency maps in the shape of the two
 * `defaultdict(set)` fields of `DAG`, the level decomposition that
 * `topological_sort` computes, cycles, and reachability.
 */
module Graph {

  /** `dependencies` or `reverse_dependencies`: a node without an entry has no neighbours. */
  type Adjacency = map<string, set<string>>

  /** `adj.get(x, set())`. */
  function Succ(adj: Adjacency, x: string): set<string>
  {
    if x in adj then adj[x] else {}
  }

  /** `reverse` holds exactly the edges of `forward`, turned round. */
  ghost predicate Mirror(forward: Adjacency, reverse: Adjacency)
  {
    forall x, u :: u in Succ(forward, x) <==> x in Succ(reverse, u)
  }

  /** Every entry and every neighbour is one of `nodes`. */
  predicate Within(adj: Adjacency, nodes: set<string>)
  {
    forall x :: x in adj ==> x in nodes && adj[x] <= nodes
  }

  // ---------------------------------------------------------------------
  // Sets and sequences

  function SetOf(s: seq<string>): (r: set<string>)
    ensures forall x :: x in r <==> x in s
  {
    set x | x in s
  }

  predicate Distinct(s: seq<string>)
  {
    forall i, j :: 0 <= i < j < |s| ==> s[i] != s[j]
  }

  lemma {:induction false} SubsetCard(a: set<string>, b: set<string>)
    requires a <= b
    ensures |a| <= |b|
    ensures |a| == |b| ==> a == b
    decreases |b|
  {
    if b != {} {
      var y :| y in b;
      SubsetCard(a - {y}, b - {y});
      assert |b| == |b - {y}| + 1;
      if y in a {
        assert |a| == |a - {y}| + 1;
        assert a == (a - {y}) + {y};
      } else {
        assert a - {y} == a;
      }
    }
  }

  /** Growing a prefix by one element adds that element, which was not there. */
  lemma PrefixStep(s: seq<string>, i: nat)
    requires Distinct(s) && i < |s|
    ensures SetOf(s[..i + 1]) == SetOf(s[..i]) + {s[i]}
    ensures s[i] !in SetOf(s[..i])
  {
    assert s[..i + 1] == s[..i] + [s[i]];
    forall j | 0 <= j < i ensures s[..i][j] != s[i] { }
  }

  lemma PrefixZero(s: seq<string>)
    ensures SetOf(s[..0]) == {}
  {
    assert s[..0] == [];
  }

  lemma UnionAssoc(a: set<string>, b: set<string>, c: set<string>)
    ensures a + b + c == a + (b + c)
  {
  }

  lemma DistinctAppend(a: seq<string>, b: seq<string>)
    requires Distinct(a) && Distinct(b) && forall x :: x in b ==> x !in a
    ensures Distinct(a + b)
  {
    forall i, j | 0 <= i < j < |a + b| ensures (a + b)[i] != (a + b)[j] {
      if j >= |a| && i < |a| {
        assert (a + b)[j] == b[j - |a|] && b[j - |a|] in b;
      }
    }
  }

  lemma {:induction false} DistinctCard(s: seq<string>)
    requires Distinct(s)
    ensures |SetOf(s)| == |s|
  {
    if |s| > 0 {
      var t := s[..|s| - 1];
      assert s == t + [s[|s| - 1]];
      assert Distinct(t);
      DistinctCard(t);
      assert SetOf(s) == SetOf(t) + {s[|s| - 1]};
      assert s[|s| - 1] !in SetOf(t);
    }
  }

  /** The union of a sequence of sets. */
  function UnionAll(ls: seq<set<string>>): (r: set<string>)
    ensures forall y :: y in r <==> exists j :: 0 <= j < |ls| && y in ls[j]
  {
    if |ls| == 0 then {}
    else
      var rest := UnionAll(ls[1..]);
      assert forall j :: 1 <= j < |ls| ==> ls[j] == ls[1..][j - 1];
      ls[0] + rest
  }

  lemma {:induction false} UnionAllAppend(ls: seq<set<string>>, s: set<string>)
    ensures UnionAll(ls + [s]) == UnionAll(ls) + s
  {
    if |ls| == 0 {
      assert ls + [s] == [s];
    } else {
      assert (ls + [s])[1..] == ls[1..] + [s];
      UnionAllAppend(ls[1..], s);
    }
  }

  /** A set-valued view of the levels: what the lists hold, without their order. */
  function LevelSets(levels: seq<seq<string>>): (r: seq<set<string>>)
    ensures |r| == |levels| && forall k :: 0 <= k < |levels| ==> r[k] == SetOf(levels[k])
  {
    seq(|levels|, k requires 0 <= k < |levels| => SetOf(levels[k]))
  }

  /** `sum(len(level) for level in result)`. */
  function SumLengths(levels: seq<seq<string>>): nat
  {
    if |levels| == 0 then 0 else SumLengths(levels[..|levels| - 1]) + |levels[|levels| - 1]|
  }

  // ---------------------------------------------------------------------
  // Levels

  /** The nodes not yet placed whose dependencies are all placed. */
  function Ready(nodes: set<string>, deps: Adjacency, done: set<string>): (r: set<string>)
    ensures forall x :: x in r <==> x in nodes && x !in done && Succ(deps, x) <= done
  {
    set x | x in nodes && x !in done && Succ(deps, x) <= done
  }

  lemma Shrinks(nodes: set<string>, done: set<string>, r: set<string>)
    requires done <= nodes && r <= nodes && r != {} && r * done == {}
    ensures done + r <= nodes && |nodes - (done + r)| < |nodes - done|
  {
    var y :| y in r;
    SubsetCard(nodes - (done + r), (nodes - done) - {y});
    assert nodes - done == ((nodes - done) - {y}) + {y};
  }

  /**
   * The levels still to come once `done` is placed: the ready nodes form
   * the next level, until none is ready.
   */
  function LevelsFrom(nodes: set<string>, deps: Adjacency, done: set<string>): seq<set<string>>
    requires done <= nodes
    decreases |nodes - done|
  {
    var r := Ready(nodes, deps, done);
    if r == {} then []
    else
      Shrinks(nodes, done, r);
      [r] + LevelsFrom(nodes, deps, done + r)
  }

  /** The levels of the whole graph: sources first. */
  function Levels(nodes: set<string>, deps: Adjacency): seq<set<string>>
  {
    LevelsFrom(nodes, deps, {})
  }

  /** Every node of `s` depends on some node of `s`: the nodes of `s` can never be placed. */
  predicate IsCore(deps: Adjacency, s: set<string>)
  {
    forall x :: x in s ==> Succ(deps, x) * s != {}
  }

  /** The graph has a cycle: a non-empty set of nodes each waiting on another of them. */
  ghost predicate HasCycle(nodes: set<string>, deps: Adjacency)
  {
    exists s :: s <= nodes && s != {} && IsCore(deps, s)
  }

  /** Once everything placed so far sits before them, nodes are placed only after their dependencies. */
  predicate Closed(deps: Adjacency, done: set<string>)
  {
    forall x :: x in done ==> Succ(deps, x) <= done
  }

  /** Placing the ready nodes keeps the placed set closed and adds as many nodes as are ready. */
  lemma ReadyStep(nodes: set<string>, deps: Adjacency, done: set<string>)
    requires Closed(deps, done)
    ensures Closed(deps, done + Ready(nodes, deps, done))
    ensures |done + Ready(nodes, deps, done)| == |done| + |Ready(nodes, deps, done)|
  {
    var r := Ready(nodes, deps, done);
    assert r * done == {};
    forall x | x in done + r ensures Succ(deps, x) <= done + r {
      assert x in r ==> Succ(deps, x) <= done;
    }
  }

  lemma LevelSetsAppend(levels: seq<seq<string>>, level: seq<string>)
    ensures LevelSets(levels + [level]) == LevelSets(levels) + [SetOf(level)]
  {
  }

  lemma AppendAssoc(a: seq<set<string>>, r: set<string>, rest: seq<set<string>>)
    ensures a + ([r] + rest) == (a + [r]) + rest
  {
  }

  lemma LevelsFromStep(nodes: set<string>, deps: Adjacency, done: set<string>)
    requires done <= nodes && Ready(nodes, deps, done) != {}
    ensures done + Ready(nodes, deps, done) <= nodes
    ensures |nodes - (done + Ready(nodes, deps, done))| < |nodes - done|
    ensures LevelsFrom(nodes, deps, done)
            == [Ready(nodes, deps, done)] + LevelsFrom(nodes, deps, done + Ready(nodes, deps, done))
  {
    Shrinks(nodes, done, Ready(nodes, deps, done));
  }

  lemma UnionAllPrefix(r: set<string>, rest: seq<set<string>>, k: nat)
    requires 1 <= k <= |rest| + 1
    ensures UnionAll(([r] + rest)[..k]) == r + UnionAll(rest[..k - 1])
  {
    assert ([r] + rest)[..k] == [r] + rest[..k - 1];
    assert ([r] + rest)[..k][1..] == rest[..k - 1];
  }

  /** Each level is non-empty and holds nodes not placed before. */
  lemma {:induction false} LevelsFresh(nodes: set<string>, deps: Adjacency, done: set<string>)
    requires done <= nodes
    ensures var ls := LevelsFrom(nodes, deps, done);
      forall k :: 0 <= k < |ls| ==> ls[k] != {} && ls[k] <= nodes && ls[k] * done == {}
    decreases |nodes - done|
  {
    var r := Ready(nodes, deps, done);
    if r != {} {
      LevelsFromStep(nodes, deps, done);
      LevelsFresh(nodes, deps, done + r);
    }
  }

  /** The levels place only nodes of the graph. */
  lemma LevelsWithin(nodes: set<string>, deps: Adjacency)
    ensures UnionAll(Levels(nodes, deps)) <= nodes
  {
    LevelsFresh(nodes, deps, {});
    assert Levels(nodes, deps) == LevelsFrom(nodes, deps, {});
  }

  /** Distinct levels share no node. */
  lemma {:induction false} LevelsDisjoint(nodes: set<string>, deps: Adjacency, done: set<string>)
    requires done <= nodes
    ensures var ls := LevelsFrom(nodes, deps, done);
      forall j, k :: 0 <= j < k < |ls| ==> ls[j] * ls[k] == {}
    decreases |nodes - done|
  {
    var r := Ready(nodes, deps, done);
    if r != {} {
      LevelsFromStep(nodes, deps, done);
      LevelsDisjoint(nodes, deps, done + r);
      LevelsFresh(nodes, deps, done + r);
    }
  }

  /** The dependencies of a node of level `k` are placed before level `k`. */
  lemma {:induction false} LevelsDepsBefore(nodes: set<string>, deps: Adjacency, done: set<string>)
    requires done <= nodes
    ensures var ls := LevelsFrom(nodes, deps, done);
      forall k, x :: 0 <= k < |ls| && x in ls[k] ==> Succ(deps, x) <= done + UnionAll(ls[..k])
    decreases |nodes - done|
  {
    var ls := LevelsFrom(nodes, deps, done);
    var r := Ready(nodes, deps, done);
    if r != {} {
      LevelsFromStep(nodes, deps, done);
      var rest := LevelsFrom(nodes, deps, done + r);
      LevelsDepsBefore(nodes, deps, done + r);
      forall k, x | 0 <= k < |ls| && x in ls[k] ensures Succ(deps, x) <= done + UnionAll(ls[..k]) {
        if k == 0 {
          assert ls[..0] == [] && x in r;
        } else {
          DepsBeforeStep(nodes, deps, done, k, x);
        }
      }
    }
  }

  lemma DepsBeforeStep(nodes: set<string>, deps: Adjacency, done: set<string>, k: nat, x: string)
    requires done <= nodes && Ready(nodes, deps, done) != {}
    requires var ls := LevelsFrom(nodes, deps, done); 0 < k < |ls| && x in ls[k]
    requires var rest := LevelsFrom(nodes, deps, done + Ready(nodes, deps, done));
      forall k, x :: 0 <= k < |rest| && x in rest[k] ==> Succ(deps, x) <= done + Ready(nodes, deps, done) + UnionAll(rest[..k])
    ensures Succ(deps, x) <= done + UnionAll(LevelsFrom(nodes, deps, done)[..k])
  {
    var r := Ready(nodes, deps, done);
    LevelsFromStep(nodes, deps, done);
    var rest := LevelsFrom(nodes, deps, done + r);
    UnionAllPrefix(r, rest, k);
    assert x in rest[k - 1];
    assert done + r + UnionAll(rest[..k - 1]) == done + (r + UnionAll(rest[..k - 1]));
  }

  /** A node of a later level waits on some node of the level just before. */
  lemma {:induction false} LevelsTight(nodes: set<string>, deps: Adjacency, done: set<string>)
    requires done <= nodes
    ensures var ls := LevelsFrom(nodes, deps, done);
      forall k, x :: 0 < k < |ls| && x in ls[k] ==> Succ(deps, x) * ls[k - 1] != {}
    decreases |nodes - done|
  {
    var ls := LevelsFrom(nodes, deps, done);
    var r := Ready(nodes, deps, done);
    if r != {} {
      LevelsFromStep(nodes, deps, done);
      var rest := LevelsFrom(nodes, deps, done + r);
      LevelsTight(nodes, deps, done + r);
      forall x | |rest| > 0 && x in rest[0] ensures Succ(deps, x) * r != {} {
        var r2 := Ready(nodes, deps, done + r);
        assert rest == [r2] + LevelsFrom(nodes, deps, done + r + r2) by { LevelsFromStep(nodes, deps, done + r); }
        assert Succ(deps, x) <= done ==> x in r;
      }
      assert forall k :: 1 <= k < |ls| ==> ls[k] == rest[k - 1];
    }
  }

  /** When the levels run out, every node left over waits on an unplaced node. */
  lemma {:induction false} LevelsEnd(nodes: set<string>, deps: Adjacency, done: set<string>)
    requires done <= nodes
    ensures var ls := LevelsFrom(nodes, deps, done);
      done + UnionAll(ls) <= nodes && Ready(nodes, deps, done + UnionAll(ls)) == {}
    decreases |nodes - done|
  {
    var r := Ready(nodes, deps, done);
    if r != {} {
      LevelsFromStep(nodes, deps, done);
      var rest := LevelsFrom(nodes, deps, done + r);
      LevelsEnd(nodes, deps, done + r);
      UnionAllCons(r, rest);
      UnionAssoc(done, r, UnionAll(rest));
    } else {
      assert LevelsFrom(nodes, deps, done) == [];
      assert done + UnionAll([]) == done;
    }
  }

  lemma UnionAllCons(r: set<string>, rest: seq<set<string>>)
    ensures UnionAll([r] + rest) == r + UnionAll(rest)
  {
    assert ([r] + rest)[1..] == rest;
  }

  lemma CoreMissesReady(nodes: set<string>, deps: Adjacency, done: set<string>, s: set<string>)
    requires IsCore(deps, s) && s * done == {}
    ensures s * Ready(nodes, deps, done) == {}
  {
    forall x | x in s ensures x !in Ready(nodes, deps, done) {
      var y :| y in Succ(deps, x) * s;
      assert y in s && y !in s * done;
      assert !(Succ(deps, x) <= done);
    }
  }

  /** No node of a core is ever placed. */
  lemma {:induction false} CoreNeverPlaced(nodes: set<string>, deps: Adjacency, done: set<string>, s: set<string>)
    requires done <= nodes && IsCore(deps, s) && s * done == {}
    ensures s * UnionAll(LevelsFrom(nodes, deps, done)) == {}
    decreases |nodes - done|
  {
    var r := Ready(nodes, deps, done);
    if r != {} {
      LevelsFromStep(nodes, deps, done);
      CoreMissesReady(nodes, deps, done, s);
      CoreNeverPlaced(nodes, deps, done + r, s);
      UnionAllCons(r, LevelsFrom(nodes, deps, done + r));
    }
  }

  /**
   * The count check of `topological_sort`: the levels place every node
   * exactly when the graph has no cycle.
   */
  lemma LevelsCoverIffAcyclic(nodes: set<string>, deps: Adjacency)
    requires Within(deps, nodes)
    ensures UnionAll(Levels(nodes, deps)) == nodes <==> !HasCycle(nodes, deps)
  {
    if UnionAll(Levels(nodes, deps)) != nodes {
      LeftoverIsCore(nodes, deps);
    }
    if HasCycle(nodes, deps) {
      CycleLeftOver(nodes, deps);
    }
  }

  /** The nodes the levels leave over wait on one another. */
  lemma LeftoverIsCore(nodes: set<string>, deps: Adjacency)
    requires Within(deps, nodes) && UnionAll(Levels(nodes, deps)) != nodes
    ensures HasCycle(nodes, deps)
  {
    var placed := UnionAll(Levels(nodes, deps));
    LevelsEnd(nodes, deps, {});
    assert {} + placed == placed;
    var rest := nodes - placed;
    forall x | x in rest ensures Succ(deps, x) * rest != {} {
      assert x !in Ready(nodes, deps, placed);
      assert Succ(deps, x) <= nodes;
    }
    assert rest <= nodes && rest != {} && IsCore(deps, rest);
  }

  lemma Pick(s: set<string>) returns (y: string)
    requires s != {}
    ensures y in s
  {
    y :| y in s;
  }

  /** A graph with a cycle leaves a node unplaced. */
  lemma CycleLeftOver(nodes: set<string>, deps: Adjacency)
    requires HasCycle(nodes, deps)
    ensures UnionAll(Levels(nodes, deps)) != nodes
  {
    var s: set<string> :| s <= nodes && s != {} && IsCore(deps, s);
    var y := Pick(s);
    CoreNeverPlaced(nodes, deps, {}, s);
    assert y !in UnionAll(Levels(nodes, deps)) by {
      assert y !in s * UnionAll(LevelsFrom(nodes, deps, {}));
    }
  }

  /**
   * On an acyclic graph the levels partition the nodes: each node sits in
   * exactly one level, each level is non-empty, and every dependency of a
   * node sits in a strictly earlier level.
   */
  predicate IsLayering(nodes: set<string>, deps: Adjacency, ls: seq<set<string>>)
  {
    && UnionAll(ls) == nodes
    && (forall k :: 0 <= k < |ls| ==> ls[k] != {})
    && (forall j, k :: 0 <= j < k < |ls| ==> ls[j] * ls[k] == {})
    && (forall j, k, x, u :: 0 <= j < |ls| && 0 <= k < |ls| && x in ls[k] && u in ls[j] && u in Succ(deps, x) ==> j < k)
  }

  /** Every dependency of a node sits in a strictly earlier level. */
  lemma LevelsOrdered(nodes: set<string>, deps: Adjacency)
    ensures var ls := Levels(nodes, deps);
      forall j, k, x, u :: 0 <= j < |ls| && 0 <= k < |ls| && x in ls[k] && u in ls[j] && u in Succ(deps, x) ==> j < k
  {
    var ls := Levels(nodes, deps);
    LevelsDepsBefore(nodes, deps, {});
    LevelsDisjoint(nodes, deps, {});
    forall j, k, x, u | 0 <= j < |ls| && 0 <= k < |ls| && x in ls[k] && u in ls[j] && u in Succ(deps, x)
      ensures j < k
    {
      assert ls == LevelsFrom(nodes, deps, {});
      assert Succ(deps, x) <= {} + UnionAll(ls[..k]);
      assert u in UnionAll(ls[..k]);
      var j' :| 0 <= j' < k && u in ls[..k][j'];
      assert u in ls[j'] * ls[j];
    }
  }

  /** The first level is exactly the nodes without dependencies. */
  lemma LevelsSources(nodes: set<string>, deps: Adjacency)
    ensures var ls := Levels(nodes, deps);
      forall x :: x in nodes ==> (Succ(deps, x) == {} <==> |ls| > 0 && x in ls[0])
  {
    var ls := Levels(nodes, deps);
    var r := Ready(nodes, deps, {});
    if r != {} {
      Shrinks(nodes, {}, r);
      assert ls == [r] + LevelsFrom(nodes, deps, r);
    }
  }

  /**
   * On an acyclic graph the levels are a layering of it, the first level
   * holds the sources, and every node of a later level waits on some node
   * of the level just before it.
   */
  lemma LevelsLayer(nodes: set<string>, deps: Adjacency)
    requires Within(deps, nodes) && !HasCycle(nodes, deps)
    ensures IsLayering(nodes, deps, Levels(nodes, deps))
    ensures forall x :: x in nodes ==> (Succ(deps, x) == {} <==> |Levels(nodes, deps)| > 0 && x in Levels(nodes, deps)[0])
    ensures forall k, x :: 0 < k < |Levels(nodes, deps)| && x in Levels(nodes, deps)[k] ==>
      Succ(deps, x) * Levels(nodes, deps)[k - 1] != {}
  {
    var ls := Levels(nodes, deps);
    assert ls == LevelsFrom(nodes, deps, {});
    LevelsFresh(nodes, deps, {});
    assert forall k :: 0 <= k < |ls| ==> ls[k] != {};
    LevelsDisjoint(nodes, deps, {});
    LevelsTight(nodes, deps, {});
    LevelsCoverIffAcyclic(nodes, deps);
    LevelsOrdered(nodes, deps);
    LevelsSources(nodes, deps);
  }

  // ---------------------------------------------------------------------
  // Reachability

  /** Consecutive nodes of `p` are joined by edges of `adj`. */
  predicate Path(adj: Adjacency, p: seq<string>)
  {
    forall i :: 0 <= i < |p| - 1 ==> p[i + 1] in Succ(adj, p[i])
  }

  /** `y` is reachable from `x` in one or more steps. */
  ghost predicate Reaches(adj: Adjacency, x: string, y: string)
  {
    exists p :: |p| >= 2 && p[0] == x && p[|p| - 1] == y && Path(adj, p)
  }

  lemma ReachesStep(adj: Adjacency, x: string, c: string, d: string)
    requires c == x || Reaches(adj, x, c)
    requires d in Succ(adj, c)
    ensures Reaches(adj, x, d)
  {
    if c == x {
      assert Path(adj, [x, d]);
    } else {
      var p :| |p| >= 2 && p[0] == x && p[|p| - 1] == c && Path(adj, p);
      var q := p + [d];
      assert Path(adj, q);
    }
  }

  /** A set holding the neighbours of `x` and closed under steps holds everything reachable from `x`. */
  lemma {:induction false} ClosedHoldsReachable(adj: Adjacency, p: seq<string>, r: set<string>)
    requires |p| >= 2 && Path(adj, p)
    requires Succ(adj, p[0]) <= r && forall v :: v in r ==> Succ(adj, v) <= r
    ensures p[|p| - 1] in r
    decreases |p|
  {
    if |p| > 2 {
      var q := p[..|p| - 1];
      assert Path(adj, q);
      ClosedHoldsReachable(adj, q, r);
    }
  }

  function Reverse(p: seq<string>): (r: seq<string>)
    ensures |r| == |p| && forall i :: 0 <= i < |p| ==> r[i] == p[|p| - 1 - i]
  {
    if |p| == 0 then [] else Reverse(p[1..]) + [p[0]]
  }

  /** Reachability along the reversed edges is reachability along the edges, backwards. */
  lemma ReachesMirror(forward: Adjacency, reverse: Adjacency, x: string, y: string)
    requires Mirror(forward, reverse)
    ensures Reaches(reverse, x, y) <==> Reaches(forward, y, x)
  {
    if Reaches(reverse, x, y) {
      var p :| |p| >= 2 && p[0] == x && p[|p| - 1] == y && Path(reverse, p);
      var q := Reverse(p);
      forall i | 0 <= i < |q| - 1 ensures q[i + 1] in Succ(forward, q[i]) {
        assert q[i] == p[|p| - 1 - i] && q[i + 1] == p[|p| - 2 - i];
        assert p[|p| - 1 - i] in Succ(reverse, p[|p| - 2 - i]);
      }
      assert Path(forward, q);
    }
    if Reaches(forward, y, x) {
      var p :| |p| >= 2 && p[0] == y && p[|p| - 1] == x && Path(forward, p);
      var q := Reverse(p);
      forall i | 0 <= i < |q| - 1 ensures q[i + 1] in Succ(reverse, q[i]) {
        assert q[i] == p[|p| - 1 - i] && q[i + 1] == p[|p| - 2 - i];
        assert p[|p| - 1 - i] in Succ(forward, p[|p| - 2 - i]);
      }
      assert Path(reverse, q);
    }
  }
}
