/** `AdaptiveExecutionGraph`: the mutable dependency graph, each method proved against the
    value-level operations of GraphModel and ExecutionLayers. */
module AdaptiveGraph {
  import opened Layering
  import opened Sequences
  import opened GraphModel
  import opened ExecutionLayers
  import StableSort

  class AdaptiveExecutionGraph {
    var order: seq<Id>  // the insertion order of the Python dict `nodes`
    var nodes: map<Id, Node>
    var edges: seq<Edge>
    var deps: DepMap
    var completed: set<Id>
    var failed: set<Id>

    function View(): Graph
      reads this
    {
      Graph(order, nodes, edges, completed, failed)
    }

    ghost predicate Consistent()
      reads this
    {
      Valid(View()) && deps == Deps(View())
    }

    constructor (ns: seq<Node>, es: seq<Edge>)
      ensures Consistent() && View() == Build(ns, es)
      ensures forall id :: id in nodes <==> id != "" && exists n :: n in ns && n.id == id
      ensures edges == es && completed == {} && failed == {}
    {
      var ids: seq<Id>, byId: map<Id, Node> := [], map[];
      for i := 0 to |ns|
        invariant Graph(ids, byId, es, {}, {}) == Build(ns[..i], es)
      {
        assert ns[..i + 1][..i] == ns[..i];
        if ns[i].id != "" {
          if ns[i].id !in byId { ids := ids + [ns[i].id]; }
          byId := byId[ns[i].id := ns[i]];
        }
      }
      assert ns[..|ns|] == ns;
      order, nodes, edges, completed, failed, deps := ids, byId, es, {}, {}, map[];
      new;
      PutAllValid(Graph([], map[], es, {}, {}), ns);
      forall id ensures id in nodes <==> id != "" && exists n :: n in ns && n.id == id { BuiltNodes(ns, es, id); }
      RebuildDeps();
    }

    method RebuildDeps()
      requires Valid(View())
      modifies this`deps
      ensures Consistent()
      ensures deps.Keys == nodes.Keys
      ensures forall n, m | n in nodes :: m in deps[n] <==> IsDependency(nodes, edges, n, m)
    {
      hide EdgeSources, DataDependencies, DepsOf, IsDependency;
      deps := EdgeDependencies(nodes, edges);
      ghost var fromEdges := deps;
      deps := AddDataDependencies(order, nodes, deps);
      RebuiltIs(View(), fromEdges, deps);
      forall n, m | n in nodes ensures m in deps[n] <==> IsDependency(nodes, edges, n, m) {
        DependenciesAre(View(), n, m);
      }
    }

    method MarkCompleted(id: Id)
      requires Consistent()
      modifies this`completed
      ensures Consistent() && View() == old(View()).(completed := old(completed) + {id})
    {
      completed := completed + {id};
    }

    method MarkFailed(id: Id)
      requires Consistent()
      modifies this`failed
      ensures Consistent() && View() == old(View()).(failed := old(failed) + {id})
    {
      failed := failed + {id};
    }

    method GetReadyNodes() returns (ready: seq<Node>)
      requires Consistent()
      ensures ready == ReadyList(View())
      ensures forall i, j | 0 <= i < j < |ready| :: NoLater(ready[i], ready[j])
      ensures forall n :: n in ready <==>
                n.id in nodes && nodes[n.id] == n && n.id !in completed && n.id !in failed && deps[n.id] <= completed
    {
      hide Deps, EdgeSources, DataDependencies, Valid;
      ready := [];
      ghost var g := View();
      for i := 0 to |order|
        invariant ready == ReadyAmong(g, order[..i])
      {
        var nid := order[i];
        assert nid in SetOf(order) && SetOf(order) == nodes.Keys by { OrderIsNodes(g); }
        assert order[..i + 1][..i] == order[..i];
        if nid !in completed && nid !in failed && deps[nid] <= completed {
          ready := ready + [nodes[nid]];
        }
      }
      assert order[..|order|] == order;
      ready := StableSort.Sort(PositionLe, ready);
      forall i, j | 0 <= i < j < |ready| ensures NoLater(ready[i], ready[j]) {
        ReadyInOrder(g, i, j);
      }
      forall n ensures n in ready <==>
        n.id in nodes && nodes[n.id] == n && n.id !in completed && n.id !in failed && deps[n.id] <= completed
      {
        ReadyMembers(g, n);
      }
    }

    method GetExecutionLayers(includeCompleted: bool) returns (layers: seq<seq<Id>>)
      requires Consistent()
      ensures IsLayering(Deps(View()), nodes,
                         if includeCompleted then nodes.Keys else nodes.Keys - completed - failed,
                         completed, layers)
    {
      hide Deps, Valid;
      var remaining := nodes.Keys;
      if !includeCompleted { remaining := remaining - completed - failed; }
      ghost var all := remaining;
      layers := [];
      var sim := completed;
      while remaining != {}
        invariant all <= nodes.Keys == deps.Keys && LayersSoFar(deps, nodes, all, completed, layers)
        invariant remaining == all - Covered(layers) && sim == completed + Covered(layers)
        decreases remaining
      {
        hide *;
        var layer := CollectLayer(deps, nodes, remaining, sim);
        LayerWithin(deps, nodes, remaining, sim, layer);
        SoFarSnoc(deps, nodes, all, completed, layers, layer);
        CoveredSnoc(layers, layer);
        layers := layers + [layer];
        remaining, sim := TakeLayer(layer, remaining, sim, includeCompleted, completed);
      }
      LayersPartition(deps, nodes, all, completed, layers);
      assert forall n | n in all :: n !in remaining;
    }

    method OrderedNodes() returns (ordered: seq<Node>)
      requires Consistent()
      ensures IsOrdering(View(), Ids(ordered))
      ensures forall n | n in ordered :: n.id in nodes && nodes[n.id] == n
    {
      var layers := GetExecutionLayers(true);
      LayersPartition(deps, nodes, nodes.Keys, completed, layers);
      var seen: set<Id>;
      ordered, seen := AppendLayers(nodes, layers);
      assert SetOf(order) <= nodes.Keys <= seen;
      ordered := AppendUnseen(order, nodes, seen, ordered);
    }

    method InsertNodes(newNodes: seq<Node>, after: Id)
      requires Consistent() && forall n | n in newNodes :: n.id != ""
      modifies this`order, this`nodes, this`edges, this`deps
      ensures Consistent() && View() == InsertAll(old(View()), newNodes, after)
    {
      for i := 0 to |newNodes|
        invariant Valid(View()) && View() == InsertAll(old(View()), newNodes[..i], after)
      {
        hide Valid, InsertNode;
        assert newNodes[..i + 1][..i] == newNodes[..i];
        InsertOne(newNodes[i], after);
      }
      assert newNodes[..|newNodes|] == newNodes;
      RebuildDeps();
    }

    /** The body of the insertion loop; `_deps` is rebuilt after the whole loop. */
    method InsertOne(node: Node, after: Id)
      requires Valid(View()) && node.id != ""
      modifies this`order, this`nodes, this`edges
      ensures Valid(View()) && View() == InsertNode(old(View()), node, after)
    {
      hide Valid;
      InsertNodeValid(View(), node, after);
      if node.id !in nodes { order := order + [node.id]; }
      nodes := nodes[node.id := node];
      if after != "" && after in nodes {
        edges := edges + [Edge(after, node.id)];
        var listed := node.dependencies;
        if after !in listed {
          listed := listed + [after];
          nodes := nodes[node.id := node.(dependencies := listed)];
        }
      }
      assert View() == InsertNode(old(View()), node, after);
    }

    method SpawnChildAgent(parent: Node, suffix: string) returns (child: Node)
      requires Consistent()
      modifies this`order, this`nodes, this`edges, this`deps
      ensures Consistent() && child == ChildNode(parent, suffix)
      ensures child.id == parent.id + "-child-" + suffix && child.dependencies == [parent.id] && child.subgoal
      ensures View() == InsertNode(old(View()), child, parent.id)
    {
      child := ChildNode(parent, suffix);
      assert child.id != "";
      InsertNodes([child], parent.id);
      assert [child][..0] == [];
    }

    /** The direct pairwise test over a batch of ids. */
    method CanParallelize(ids: seq<Id>) returns (ok: bool)
      requires Consistent()
      ensures ok == Independent(Deps(View()), ids)
      ensures ok <==> |ids| > 1 && forall k, l | 0 <= k < |ids| && 0 <= l < |ids| && k != l && ids[k] in deps ::
                ids[l] !in deps[ids[k]]
    {
      ok := NoDirectPair(deps, ids);
    }
  }

  lemma ReadyMembers(g: Graph, n: Node)
    requires Valid(g)
    ensures n in ReadyList(g) <==>
      && n.id in g.nodes && g.nodes[n.id] == n
      && n.id !in g.completed && n.id !in g.failed && Deps(g)[n.id] <= g.completed
  {
    hide Deps, ReadyList, Valid;
    ReadyListCorrect(g);
  }

  /** The two loops together compute the dependencies. */
  lemma RebuiltIs(g: Graph, fromEdges: DepMap, d: DepMap)
    requires Valid(g) && d.Keys == g.nodes.Keys == fromEdges.Keys
    requires forall n | n in g.nodes :: fromEdges[n] == EdgeSources(g.edges, n)
    requires forall k | 0 <= k < |g.order| && g.order[k] in g.nodes ::
        d[g.order[k]] == fromEdges[g.order[k]] + DataDependencies(g.nodes, g.order[k])
    ensures d == Deps(g)
  {
    hide EdgeSources, DataDependencies;
    forall n | n in g.nodes ensures d[n] == EdgeSources(g.edges, n) + DataDependencies(g.nodes, n) {
      assert n in SetOf(g.order);
    }
  }

  lemma OrderIsNodes(g: Graph)
    requires Valid(g)
    ensures SetOf(g.order) == g.nodes.Keys
  {
  }

  // ---------------------------------------------------------------- the loops, over values

  method EdgeDependencies(nodes: map<Id, Node>, edges: seq<Edge>) returns (deps: DepMap)
    ensures deps.Keys == nodes.Keys && forall n | n in nodes :: deps[n] == EdgeSources(edges, n)
  {
    deps := map n | n in nodes :: {};
    for i := 0 to |edges|
      invariant deps.Keys == nodes.Keys
      invariant forall n | n in nodes :: deps[n] == EdgeSources(edges[..i], n)
    {
      var e := edges[i];
      assert edges[..i + 1] == edges[..i] + [e];
      if e.source != "" && e.target != "" && e.target in deps {
        deps := deps[e.target := deps[e.target] + {e.source}];
      }
    }
    assert edges[..|edges|] == edges;
  }

  method AddDataDependencies(order: seq<Id>, nodes: map<Id, Node>, deps0: DepMap) returns (deps: DepMap)
    requires NoDup(order) && SetOf(order) == nodes.Keys == deps0.Keys
    ensures deps.Keys == nodes.Keys
    ensures forall k | 0 <= k < |order| && order[k] in nodes ::
        deps[order[k]] == deps0[order[k]] + DataDependencies(nodes, order[k])
  {
    deps := deps0;
    assert forall k | 0 <= k < |order| :: order[k] in SetOf(order);
    for i := 0 to |order|
      invariant deps.Keys == nodes.Keys
      invariant forall k | 0 <= k < i :: deps[order[k]] == deps0[order[k]] + DataDependencies(nodes, order[k])
      invariant forall k | i <= k < |order| :: deps[order[k]] == deps0[order[k]]
    {
      hide SetOf, DataDependencies;
      var found := ListedNodes(nodes, order[i]);
      deps := deps[order[i] := deps[order[i]] + found];
    }
  }

  method ListedNodes(nodes: map<Id, Node>, n: Id) returns (found: set<Id>)
    requires n in nodes
    ensures found == DataDependencies(nodes, n)
  {
    var listed := nodes[n].dependencies;
    found := {};
    for j := 0 to |listed|
      invariant found == set m | m in listed[..j] && m in nodes
    {
      if listed[j] in nodes { found := found + {listed[j]}; }
    }
    assert listed[..|listed|] == listed;
  }

  method NoDirectPair(deps: DepMap, ids: seq<Id>) returns (ok: bool)
    ensures ok == Independent(deps, ids)
  {
    if |ids| <= 1 { return false; }
    for i := 0 to |ids|
      invariant forall k, l | 0 <= k < i && k < l < |ids| :: NoDirectDependency(deps, ids[k], ids[l])
    {
      for j := i + 1 to |ids|
        invariant forall l | i < l < j :: NoDirectDependency(deps, ids[i], ids[l])
      {
        if (ids[i] in deps && ids[j] in deps[ids[i]]) || (ids[j] in deps && ids[i] in deps[ids[j]]) {
          assert !NoDirectDependency(deps, ids[i], ids[j]);
          return false;
        }
      }
    }
    return true;
  }

  method AppendUnseen(order: seq<Id>, nodes: map<Id, Node>, seen: set<Id>, ordered0: seq<Node>)
    returns (ordered: seq<Node>)
    requires SetOf(order) <= nodes.Keys
    ensures ordered0 <= ordered && (SetOf(order) <= seen ==> ordered == ordered0)
  {
    ordered := ordered0;
    for i := 0 to |order|
      invariant ordered0 <= ordered && (SetOf(order) <= seen ==> ordered == ordered0)
    {
      assert order[i] in SetOf(order);
      if order[i] !in seen { ordered := ordered + [nodes[order[i]]]; }
    }
  }

  /** The list comprehension over the Python set `remaining`, in whatever order it iterates. */
  method UnblockedList(deps: DepMap, remaining: set<Id>, sim: set<Id>) returns (layer: seq<Id>)
    requires remaining <= deps.Keys
    ensures NoDup(layer) && SetOf(layer) == Unblocked(deps, remaining, sim)
  {
    layer := [];
    var todo := remaining;
    while todo != {}
      invariant todo <= remaining && NoDup(layer)
      invariant SetOf(layer) == Unblocked(deps, remaining - todo, sim)
    {
      var nid :| nid in todo;
      assert remaining - (todo - {nid}) == (remaining - todo) + {nid};
      UnblockedAdd(deps, remaining - todo, nid, sim);
      assert nid !in SetOf(layer);
      todo := todo - {nid};
      if deps[nid] <= sim {
        SetOfConcat(layer, [nid]);
        NoDupConcat(layer, [nid]);
        layer := layer + [nid];
      }
    }
    assert remaining - todo == remaining;
  }

  lemma UnblockedAdd(deps: DepMap, s: set<Id>, n: Id, sim: set<Id>)
    requires s + {n} <= deps.Keys
    ensures Unblocked(deps, s + {n}, sim) == Unblocked(deps, s, sim) + (if deps[n] <= sim then {n} else {})
  {
  }

  method CollectLayer(deps: DepMap, nodes: map<Id, Node>, remaining: set<Id>, sim: set<Id>) returns (layer: seq<Id>)
    requires remaining <= deps.Keys == nodes.Keys && remaining != {}
    ensures LayerFrom(deps, nodes, remaining, sim, layer)
  {
    layer := UnblockedList(deps, remaining, sim);
    if |layer| == 0 {
      assert SetOf(layer) == {};
      ghost var least := LeastExists(nodes, remaining);
      var m :| m in remaining && forall o | o in remaining :: PositionLe(nodes[m], nodes[o]);
      layer := [m];
    } else {
      assert layer[0] in SetOf(layer);
    }
  }

  /** The loop that discards a collected layer from `remaining` and simulates its completion. */
  method TakeLayer(layer: seq<Id>, remaining0: set<Id>, sim0: set<Id>, includeCompleted: bool, completed: set<Id>)
    returns (remaining: set<Id>, sim: set<Id>)
    requires completed <= sim0
    ensures remaining == remaining0 - SetOf(layer) && sim == sim0 + SetOf(layer)
  {
    remaining, sim := remaining0, sim0;
    for i := 0 to |layer|
      invariant remaining == remaining0 - SetOf(layer[..i]) && sim == sim0 + SetOf(layer[..i])
    {
      assert SetOf(layer[..i + 1]) == SetOf(layer[..i]) + {layer[i]};
      remaining := remaining - {layer[i]};
      if includeCompleted || layer[i] !in completed { sim := sim + {layer[i]}; }
    }
    assert layer[..|layer|] == layer;
  }

  /** The nested loops of `ordered_nodes` that append the layers node by node. */
  method AppendLayers(nodes: map<Id, Node>, layers: seq<seq<Id>>) returns (ordered: seq<Node>, seen: set<Id>)
    requires NoDup(Flatten(layers)) && Covered(layers) <= nodes.Keys
    requires forall n | n in nodes :: nodes[n].id == n
    ensures Ids(ordered) == Flatten(layers) && seen == Covered(layers)
    ensures forall n | n in ordered :: n.id in nodes && nodes[n.id] == n
  {
    ordered, seen := [], {};
    for i := 0 to |layers|
      invariant Ids(ordered) == Flatten(layers[..i]) && seen == SetOf(Ids(ordered))
      invariant forall n | n in ordered :: n.id in nodes && nodes[n.id] == n
    {
      for j := 0 to |layers[i]|
        invariant Ids(ordered) == Flatten(layers[..i]) + layers[i][..j] && seen == SetOf(Ids(ordered))
        invariant forall n | n in ordered :: n.id in nodes && nodes[n.id] == n
      {
        hide Flatten;
        var nid := layers[i][j];
        FreshInFlat(layers, i, j);
        if nid !in seen && nid in nodes {
          seen := seen + {nid};
          IdsSnoc(ordered, nodes[nid]);
          ordered := ordered + [nodes[nid]];
        }
        assert layers[i][..j + 1] == layers[i][..j] + [nid];
      }
      assert layers[i][..|layers[i]|] == layers[i];
      assert layers[..i + 1] == layers[..i] + [layers[i]];
      FlattenSnoc(layers[..i], layers[i]);
    }
    assert layers[..|layers|] == layers;
  }

  lemma IdsSnoc(ns: seq<Node>, n: Node)
    ensures Ids(ns + [n]) == Ids(ns) + [n.id]
    ensures SetOf(Ids(ns + [n])) == SetOf(Ids(ns)) + {n.id}
  {
    assert Ids(ns + [n]) == Ids(ns) + [n.id];
    SetOfConcat(Ids(ns), [n.id]);
  }

  /** In a layering no id of layer i occurs before its place. */
  lemma FreshInFlat(layers: seq<seq<Id>>, i: nat, j: nat)
    requires NoDup(Flatten(layers)) && i < |layers| && j < |layers[i]|
    ensures layers[i][j] !in SetOf(Flatten(layers[..i]) + layers[i][..j])
    ensures layers[i][j] in Covered(layers)
  {
    assert layers[..i + 1] == layers[..i] + [layers[i]];
    FlattenSnoc(layers[..i], layers[i]);
    FlattenPrefix(layers, i + 1);
    var pre := Flatten(layers[..i]) + layers[i];
    assert pre <= Flatten(layers);
    assert pre[|Flatten(layers[..i])| + j] == layers[i][j];
    assert Flatten(layers[..i]) + layers[i][..j] == pre[..|Flatten(layers[..i])| + j];
  }

  // ---------------------------------------------------------------- parallel batches

  predicate NoDirectDependency(d: DepMap, a: Id, b: Id) {
    !(a in d && b in d[a]) && !(b in d && a in d[b])
  }

  predicate Independent(d: DepMap, ids: seq<Id>) {
    |ids| > 1 && forall k, l | 0 <= k < l < |ids| :: NoDirectDependency(d, ids[k], ids[l])
  }

  /** For a batch drawn from the ready set, the direct test never refuses two or more nodes, and no
      member is reachable from another through any chain of dependencies. */
  lemma ReadyBatchIndependent(d: DepMap, done: set<Id>, batch: seq<Id>)
    requires DownClosed(d, done) && NoDup(batch) && SetOf(batch) <= Ready(d, done)
    ensures Independent(d, batch) <==> |batch| > 1
    ensures forall a, b | a in batch && b in batch :: !DependsOn(d, a, b)
  {
    forall i | 0 <= i < |batch| ensures batch[i] in Ready(d, done) {
      assert batch[i] in SetOf(batch);
    }
    forall a, b | a in batch && b in batch ensures !DependsOn(d, a, b) {
      assert a in SetOf(batch) && b in SetOf(batch);
      if DependsOn(d, a, b) {
        var c: seq<Id> :| Chain(d, c) && |c| > 1 && c[0] == b && Last(c) == a;
        DownClosedReach(d, done, Front(c));
        assert false;
      }
    }
  }

  /** A node put before a chain. */
  lemma {:induction false} ChainCons(d: DepMap, c: seq<Id>, m: Id)
    requires Chain(d, c) && m in d && c[0] in d && m in d[c[0]]
    ensures Chain(d, [m] + c) && Last([m] + c) == Last(c) && ([m] + c)[0] == m
  {
    if |c| == 1 {
      assert Front([m] + c) == [m] && Chain(d, [m]);
    } else {
      ChainCons(d, Front(c), m);
      assert Front([m] + c) == [m] + Front(c);
    }
  }

  /** What depends on a node depends on that node's dependencies. */
  lemma DependsFurther(d: DepMap, b: Id, m: Id, x: Id)
    requires Closed(d) && DependsOn(d, b, m) && m in d && x in d[m]
    ensures DependsOn(d, b, x)
  {
    var c: seq<Id> :| Chain(d, c) && |c| > 1 && c[0] == m && Last(c) == b;
    ChainCons(d, c, x);
    assert |[x] + c| > 1;
  }

  lemma DependsDirectly(d: DepMap, b: Id, x: Id)
    requires Closed(d) && b in d && x in d[b]
    ensures DependsOn(d, b, x)
  {
    assert Chain(d, [b]) && [b][0] == b;
    ChainCons(d, [b], x);
    assert |[x] + [b]| > 1;
  }

  /** A batch is independent through every chain of dependencies exactly when some completed set, closed
      under dependencies, makes all of it ready. */
  lemma {:induction false} IndependentIffReady(d: DepMap, batch: seq<Id>)
    requires Closed(d) && NoDup(batch) && SetOf(batch) <= d.Keys
    ensures (forall a, b | a in batch && b in batch :: !DependsOn(d, a, b))
       <==> exists done :: DownClosed(d, done) && SetOf(batch) <= Ready(d, done)
  {
    if exists done :: DownClosed(d, done) && SetOf(batch) <= Ready(d, done) {
      var done :| DownClosed(d, done) && SetOf(batch) <= Ready(d, done);
      ReadyBatchIndependent(d, done, batch);
    } else if forall a, b | a in batch && b in batch :: !DependsOn(d, a, b) {
      BelowMakesReady(d, batch);
    }
  }

  lemma BelowMakesReady(d: DepMap, batch: seq<Id>)
    requires Closed(d) && SetOf(batch) <= d.Keys
    requires forall a, b | a in batch && b in batch :: !DependsOn(d, a, b)
    ensures exists done :: DownClosed(d, done) && SetOf(batch) <= Ready(d, done)
  {
    hide DependsOn;
    var below := set m, b | m in d.Keys && b in batch && DependsOn(d, b, m) :: m;
    forall n, x | n in below && x in d[n] ensures x in below {
      var b :| b in batch && DependsOn(d, b, n);
      DependsFurther(d, b, n, x);
    }
    forall b | b in SetOf(batch) ensures b in Ready(d, below) {
      forall x | x in d[b] ensures x in below { DependsDirectly(d, b, x); }
    }
    assert DownClosed(d, below) && SetOf(batch) <= Ready(d, below);
  }

  /** For other batches the direct test misses indirect chains: in b <- m <- a it lets a and b
      run side by side. */
  lemma DirectTestMissesChains(a: Id, m: Id, b: Id)
    requires a != m && m != b && a != b
    ensures var d := map[a := {m}, m := {b}, b := {}]; Independent(d, [a, b]) && DependsOn(d, a, b)
  {
    var d := map[a := {m}, m := {b}, b := {}];
    var c := [b, m, a];
    assert Front(c) == [b, m] && Front([b, m]) == [b];
    assert Chain(d, [b]);
    assert Chain(d, [b, m]);
    assert Chain(d, c) && |c| > 1 && c[0] == b && Last(c) == a;
  }
}
