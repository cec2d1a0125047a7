/** What `get_execution_layers` and `ordered_nodes` may return.  A layer is collected from a Python
    set, so its inner order is arbitrary: the results are relations, and every lemma holds for
    every order. */
module ExecutionLayers {
  import opened Layering
  import opened Sequences
  import opened GraphModel

  /** Nodes of `remaining` whose dependencies are all simulated as completed. */
  function Unblocked(d: DepMap, remaining: set<Id>, sim: set<Id>): set<Id>
    requires remaining <= d.Keys
  {
    set n | n in remaining && d[n] <= sim
  }

  ghost predicate LeastByPosition(nodes: map<Id, Node>, remaining: set<Id>, m: Id)
    requires remaining <= nodes.Keys
  {
    m in remaining && forall o | o in remaining :: PositionLe(nodes[m], nodes[o])
  }

  /** One pass of the layering loop: every unblocked node or, when there is none, one node that
      no other precedes by position. */
  ghost predicate LayerFrom(d: DepMap, nodes: map<Id, Node>, remaining: set<Id>, sim: set<Id>, layer: seq<Id>)
    requires remaining <= d.Keys == nodes.Keys
  {
    && NoDup(layer)
    && if Unblocked(d, remaining, sim) != {} then SetOf(layer) == Unblocked(d, remaining, sim)
       else |layer| == 1 && LeastByPosition(nodes, remaining, layer[0])
  }

  /** A forced layer is one node, with no remaining node above it, nor left of it at its height. */
  lemma ForcedIsTopmost(d: DepMap, nodes: map<Id, Node>, remaining: set<Id>, sim: set<Id>, layer: seq<Id>, o: Id,
                        x: real, y: real, x': real, y': real)
    requires remaining <= d.Keys == nodes.Keys && LayerFrom(d, nodes, remaining, sim, layer)
    requires forall n | n in remaining :: !(d[n] <= sim)
    requires o in remaining && At(nodes[o], x', y')
    ensures |layer| == 1 && layer[0] in remaining
    ensures At(nodes[layer[0]], x, y) ==> y < y' || (y == y' && x <= x')
  {
    PositionLeIs(nodes[layer[0]], nodes[o]);
  }

  function Covered(layers: seq<seq<Id>>): set<Id> {
    SetOf(Flatten(layers))
  }

  ghost predicate LayersSoFar(d: DepMap, nodes: map<Id, Node>, all: set<Id>, sim: set<Id>, layers: seq<seq<Id>>)
    requires all <= d.Keys == nodes.Keys
  {
    forall i | 0 <= i < |layers| ::
      LayerFrom(d, nodes, all - Covered(layers[..i]), sim + Covered(layers[..i]), layers[i])
  }

  /** `layers` is a possible result of the loop started on `all` with `sim` completed. */
  ghost predicate IsLayering(d: DepMap, nodes: map<Id, Node>, all: set<Id>, sim: set<Id>, layers: seq<seq<Id>>)
    requires all <= d.Keys == nodes.Keys
  {
    LayersSoFar(d, nodes, all, sim, layers) && Covered(layers) == all
  }

  /** `ids` is a possible result of `ordered_nodes`, which lays out all nodes but starts from the
      completed set. */
  ghost predicate IsOrdering(g: Graph, ids: seq<Id>) {
    exists layers :: IsLayering(Deps(g), g.nodes, g.nodes.Keys, g.completed, layers) && ids == Flatten(layers)
  }

  lemma CoveredSnoc(layers: seq<seq<Id>>, layer: seq<Id>)
    ensures Covered(layers + [layer]) == Covered(layers) + SetOf(layer)
  {
    FlattenSnoc(layers, layer);
    SetOfConcat(Flatten(layers), layer);
  }

  lemma SoFarSnoc(d: DepMap, nodes: map<Id, Node>, all: set<Id>, sim: set<Id>, layers: seq<seq<Id>>, layer: seq<Id>)
    requires all <= d.Keys == nodes.Keys && LayersSoFar(d, nodes, all, sim, layers)
    requires LayerFrom(d, nodes, all - Covered(layers), sim + Covered(layers), layer)
    ensures LayersSoFar(d, nodes, all, sim, layers + [layer])
  {
    var more := layers + [layer];
    forall i | 0 <= i < |more|
      ensures LayerFrom(d, nodes, all - Covered(more[..i]), sim + Covered(more[..i]), more[i])
    {
      assert more[..i] == layers[..i];
      if i == |layers| { assert layers[..i] == layers; }
    }
  }

  // ---------------------------------------------------------------- partition

  /** On any graph, cyclic or not: layers are nonempty and disjoint and cover exactly `all`. */
  lemma {:induction false} LayersPartition(d: DepMap, nodes: map<Id, Node>, all: set<Id>, sim: set<Id>,
          layers: seq<seq<Id>>)
    requires all <= d.Keys == nodes.Keys && LayersSoFar(d, nodes, all, sim, layers)
    ensures forall i | 0 <= i < |layers| :: layers[i] != []
    ensures NoDup(Flatten(layers)) && Covered(layers) <= all
  {
    if layers != [] {
      var init, last := layers[..|layers| - 1], layers[|layers| - 1];
      assert layers == init + [last];
      forall i | 0 <= i < |init|
        ensures LayerFrom(d, nodes, all - Covered(init[..i]), sim + Covered(init[..i]), init[i])
      {
        assert init[..i] == layers[..i];
      }
      LayersPartition(d, nodes, all, sim, init);
      FlattenSnoc(init, last);
      assert LayerFrom(d, nodes, all - Covered(init), sim + Covered(init), last);
      LayerWithin(d, nodes, all - Covered(init), sim + Covered(init), last);
      NoDupConcat(Flatten(init), last);
      SetOfConcat(Flatten(init), last);
    }
  }

  lemma LayerWithin(d: DepMap, nodes: map<Id, Node>, remaining: set<Id>, sim: set<Id>, layer: seq<Id>)
    requires remaining <= d.Keys == nodes.Keys && LayerFrom(d, nodes, remaining, sim, layer)
    ensures layer != [] && SetOf(layer) <= remaining
  {
    if Unblocked(d, remaining, sim) != {} {
      var n :| n in Unblocked(d, remaining, sim);
      assert n in SetOf(layer);
    } else {
      assert SetOf(layer) == {layer[0]};
    }
  }

  /** The loop had to force a node at pass i. */
  ghost predicate Forced(d: DepMap, nodes: map<Id, Node>, all: set<Id>, sim: set<Id>, layers: seq<seq<Id>>, i: nat)
    requires all <= d.Keys == nodes.Keys && i < |layers|
  {
    Unblocked(d, all - Covered(layers[..i]), sim + Covered(layers[..i])) == {}
  }

  // ---------------------------------------------------------------- layers from scratch

  lemma UnblockedIsReady(d: DepMap, done: set<Id>)
    ensures Unblocked(d, d.Keys - done, {} + done) == Ready(d, done)
  {
    assert {} + done == done;
  }

  lemma PassFrom(d: DepMap, nodes: map<Id, Node>, done: set<Id>, layer: seq<Id>)
    requires d.Keys == nodes.Keys && LayerFrom(d, nodes, d.Keys - done, {} + done, layer)
    ensures Ready(d, done) != {} ==> SetOf(layer) == Ready(d, done)
    ensures done != d.Keys
  {
    UnblockedIsReady(d, done);
    LayerWithin(d, nodes, d.Keys - done, {} + done, layer);
    assert layer[0] in SetOf(layer);
  }

  lemma CoveredStep(layers: seq<seq<Id>>, i: nat)
    requires i < |layers|
    ensures Covered(layers[..i + 1]) == Covered(layers[..i]) + SetOf(layers[i])
  {
    assert layers[..i + 1] == layers[..i] + [layers[i]];
    CoveredSnoc(layers[..i], layers[i]);
  }

  /** One pass of a layering from scratch that has so far followed the rounds. */
  lemma OnePass(d: DepMap, nodes: map<Id, Node>, layers: seq<seq<Id>>, i: nat)
    requires d.Keys == nodes.Keys && LayersSoFar(d, nodes, d.Keys, {}, layers) && i < |layers|
    requires Covered(layers[..i]) == Done(d, i)
    ensures Forced(d, nodes, d.Keys, {}, layers, i) <==> Layer(d, i) == {}
    ensures Layer(d, i) != {} ==> SetOf(layers[i]) == Layer(d, i)
    ensures Layer(d, i) != {} ==> Covered(layers[..i + 1]) == Done(d, i + 1)
    ensures Done(d, i) != d.Keys
  {
    var done := Covered(layers[..i]);
    assert LayerFrom(d, nodes, d.Keys - done, {} + done, layers[i]);
    UnblockedIsReady(d, done);
    PassFrom(d, nodes, done, layers[i]);
    CoveredStep(layers, i);
  }

  /** As long as rounds run something, the first i passes cover exactly the first i rounds. */
  lemma {:induction false} PassesCoverRounds(d: DepMap, nodes: map<Id, Node>, layers: seq<seq<Id>>, i: nat)
    requires d.Keys == nodes.Keys && LayersSoFar(d, nodes, d.Keys, {}, layers) && i <= |layers|
    requires i == 0 || Layer(d, i - 1) != {}
    ensures Covered(layers[..i]) == Done(d, i)
  {
    if i > 0 {
      RanBefore(d, if i > 1 then i - 2 else 0, i - 1);
      PassesCoverRounds(d, nodes, layers, i - 1);
      OnePass(d, nodes, layers, i - 1);
    }
  }

  /** ... and each of them collects exactly its round. */
  lemma PassIsRound(d: DepMap, nodes: map<Id, Node>, layers: seq<seq<Id>>, i: nat)
    requires d.Keys == nodes.Keys && LayersSoFar(d, nodes, d.Keys, {}, layers) && i < |layers|
    requires Layer(d, i) != {}
    ensures SetOf(layers[i]) == Layer(d, i)
  {
    RanBefore(d, if i > 0 then i - 1 else 0, i);
    PassesCoverRounds(d, nodes, layers, i);
    OnePass(d, nodes, layers, i);
  }

  lemma RoundNeedsPass(d: DepMap, layers: seq<seq<Id>>, k: nat)
    requires k <= |layers| && Covered(layers[..k]) == Done(d, k) && Covered(layers) == d.Keys
    requires Layer(d, k) != {}
    ensures k < |layers|
  {
    assert layers[..|layers|] == layers;
    var n :| n in Layer(d, k);
    assert n in d.Keys && n !in Done(d, k);
  }

  /** A layering from scratch has at least as many passes as there are rounds that run something. */
  lemma {:induction false} EnoughPasses(d: DepMap, nodes: map<Id, Node>, layers: seq<seq<Id>>, k: nat)
    requires d.Keys == nodes.Keys && IsLayering(d, nodes, d.Keys, {}, layers)
    requires k == 0 || Layer(d, k - 1) != {}
    ensures k <= |layers|
  {
    if k > 0 {
      RanBefore(d, if k > 1 then k - 2 else 0, k - 1);
      EnoughPasses(d, nodes, layers, k - 1);
      PassesCoverRounds(d, nodes, layers, k - 1);
      RoundNeedsPass(d, layers, k - 1);
    }
  }

  lemma PassNeedsRound(d: DepMap, nodes: map<Id, Node>, layers: seq<seq<Id>>, i: nat)
    requires d.Keys == nodes.Keys && LayersSoFar(d, nodes, d.Keys, {}, layers) && i < |layers|
    requires Done(d, |d|) == d.Keys && Covered(layers[..i]) == Done(d, i)
    ensures Layer(d, i) != {}
  {
    OnePass(d, nodes, layers, i);
    if Layer(d, i) == {} { StuckIsFinal(d, i); }
  }

  /** On a graph whose rounds finish everything, every pass has a nonempty round to collect. */
  lemma {:induction false} RoundForEveryPass(d: DepMap, nodes: map<Id, Node>, layers: seq<seq<Id>>, i: nat)
    requires d.Keys == nodes.Keys && LayersSoFar(d, nodes, d.Keys, {}, layers) && i < |layers|
    requires Done(d, |d|) == d.Keys
    ensures Layer(d, i) != {}
    ensures Covered(layers[..i]) == Done(d, i)
  {
    if i > 0 { RoundForEveryPass(d, nodes, layers, i - 1); }
    PassesCoverRounds(d, nodes, layers, i);
    PassNeedsRound(d, nodes, layers, i);
  }

  /** ... so the passes cover the same as as many rounds. */
  lemma PassesCountRounds(d: DepMap, nodes: map<Id, Node>, layers: seq<seq<Id>>)
    requires d.Keys == nodes.Keys && IsLayering(d, nodes, d.Keys, {}, layers)
    requires Done(d, |d|) == d.Keys
    ensures Done(d, |layers|) == d.Keys
    ensures layers != [] ==> Layer(d, |layers| - 1) != {}
  {
    if layers != [] { RoundForEveryPass(d, nodes, layers, |layers| - 1); }
    PassesCoverRounds(d, nodes, layers, |layers|);
    assert layers[..|layers|] == layers;
  }

  /** A layering without a forced pass has a nonempty round for every pass. */
  lemma {:induction false} UnforcedFollowsRounds(d: DepMap, nodes: map<Id, Node>, layers: seq<seq<Id>>, i: nat)
    requires d.Keys == nodes.Keys && LayersSoFar(d, nodes, d.Keys, {}, layers) && i < |layers|
    requires forall j | 0 <= j < |layers| :: !Forced(d, nodes, d.Keys, {}, layers, j)
    ensures Layer(d, i) != {}
  {
    if i > 0 { UnforcedFollowsRounds(d, nodes, layers, i - 1); }
    PassesCoverRounds(d, nodes, layers, i);
    OnePass(d, nodes, layers, i);
  }

  /** The loop forces a node exactly on graphs with a cycle or a dependency that is no node. */
  lemma ForcedIffUnsound(d: DepMap, nodes: map<Id, Node>, layers: seq<seq<Id>>)
    requires d.Keys == nodes.Keys && IsLayering(d, nodes, d.Keys, {}, layers)
    ensures (exists i :: 0 <= i < |layers| && Forced(d, nodes, d.Keys, {}, layers, i))
       <==> !(Closed(d) && Acyclic(d))
  {
    var n := |layers|;
    CompletesIffSound(d);
    if Done(d, |d|) == d.Keys {
      forall i | 0 <= i < n ensures !Forced(d, nodes, d.Keys, {}, layers, i) {
        RoundForEveryPass(d, nodes, layers, i);
        RanBefore(d, if i > 0 then i - 1 else 0, i);
        PassesCoverRounds(d, nodes, layers, i);
        OnePass(d, nodes, layers, i);
      }
    } else if forall i | 0 <= i < n :: !Forced(d, nodes, d.Keys, {}, layers, i) {
      if n > 0 { UnforcedFollowsRounds(d, nodes, layers, n - 1); }
      PassesCoverRounds(d, nodes, layers, n);
      assert layers[..n] == layers;
      FixpointReached(d, n);
      DoneGrows(d, |d|);
    }
  }

  /** Whatever a node depends on has been collected before its own pass. */
  ghost predicate DependenciesEarlier(d: DepMap, layers: seq<seq<Id>>) {
    forall i, n | 0 <= i < |layers| && n in layers[i] && n in d :: d[n] <= Covered(layers[..i])
  }

  lemma PassOfNode(d: DepMap, nodes: map<Id, Node>, layers: seq<seq<Id>>, i: nat)
    requires d.Keys == nodes.Keys && LayersSoFar(d, nodes, d.Keys, {}, layers) && i < |layers|
    ensures !Forced(d, nodes, d.Keys, {}, layers, i) <==>
            forall n | n in layers[i] && n in d :: d[n] <= Covered(layers[..i])
  {
    hide Covered, LeastByPosition;
    var done := Covered(layers[..i]);
    assert LayerFrom(d, nodes, d.Keys - done, {} + done, layers[i]);
    assert {} + done == done;
    LayerWithin(d, nodes, d.Keys - done, {} + done, layers[i]);
    forall n | n in layers[i] ensures n in d.Keys - done { assert n in SetOf(layers[i]); }
    if Forced(d, nodes, d.Keys, {}, layers, i) {
      var n := layers[i][0];
      assert n in layers[i] && n !in Unblocked(d, d.Keys - done, done);
    } else {
      forall n | n in layers[i] ensures d[n] <= done {
        assert n in SetOf(layers[i]);
        assert n in Unblocked(d, d.Keys - done, done);
      }
    }
  }

  /** In a layering from scratch every dependency is collected before the nodes that need it, exactly on an
      acyclic, closed graph. */
  lemma DependenciesEarlierIffSound(d: DepMap, nodes: map<Id, Node>, layers: seq<seq<Id>>)
    requires d.Keys == nodes.Keys && IsLayering(d, nodes, d.Keys, {}, layers)
    ensures DependenciesEarlier(d, layers) <==> Closed(d) && Acyclic(d)
  {
    hide Forced, Covered, LayersSoFar, Closed, Acyclic;
    ForcedIffUnsound(d, nodes, layers);
    forall i: nat | i < |layers|
      ensures !Forced(d, nodes, d.Keys, {}, layers, i) <==>
              forall n | n in layers[i] && n in d :: d[n] <= Covered(layers[..i])
    {
      PassOfNode(d, nodes, layers, i);
    }
  }

  /** ... there, each dependency of a node of layer i lies in one layer before i. */
  lemma DependencyInEarlierLayer(d: DepMap, nodes: map<Id, Node>, layers: seq<seq<Id>>, i: nat, n: Id, m: Id)
    returns (j: nat)
    requires d.Keys == nodes.Keys && IsLayering(d, nodes, d.Keys, {}, layers) && i < |layers|
    requires Closed(d) && Acyclic(d) && n in layers[i] && n in d && m in d[n]
    ensures j < i && m in layers[j]
  {
    hide Closed, Acyclic, LayersSoFar;
    DependenciesEarlierIffSound(d, nodes, layers);
    j := InFlatten(layers[..i], m);
  }

  /** On an acyclic, closed graph the layers are exactly the longest-path levels. */
  lemma {:induction false} LayersAreLevels(d: DepMap, nodes: map<Id, Node>, layers: seq<seq<Id>>, i: nat, n: Id)
    requires d.Keys == nodes.Keys && IsLayering(d, nodes, d.Keys, {}, layers) && i < |layers| && n in nodes
    requires Closed(d) && Acyclic(d)
    ensures n in layers[i] <==> LongestChain(d, n, i + 1)
  {
    SoundIsComplete(d);
    RoundForEveryPass(d, nodes, layers, i);
    PassIsRound(d, nodes, layers, i);
    LayerIsDepth(d, i, n);
    assert n in layers[i] <==> n in SetOf(layers[i]);
  }

  /** ... and there are as many layers as nodes on the longest chain. */
  lemma {:induction false} LayerCountIsLongestChain(d: DepMap, nodes: map<Id, Node>, layers: seq<seq<Id>>)
    requires d.Keys == nodes.Keys && IsLayering(d, nodes, d.Keys, {}, layers)
    requires Closed(d) && Acyclic(d)
    ensures forall c: seq<Id> | Chain(d, c) :: |c| <= |layers|
    ensures layers != [] ==> exists c: seq<Id> :: Chain(d, c) && |c| == |layers|
  {
    hide *;
    SoundIsComplete(d);
    PassesCountRounds(d, nodes, layers);
    DoneBoundsChains(d, |layers|);
    if layers != [] {
      var m :| m in Layer(d, |layers| - 1);
      var c := LayerHasChain(d, |layers| - 1, m);
    }
  }

  lemma DoneBoundsChains(d: DepMap, n: nat)
    requires Done(d, n) == d.Keys
    ensures forall c: seq<Id> | Chain(d, c) :: |c| <= n
  {
    forall c: seq<Id> | Chain(d, c) ensures |c| <= n {
      ChainBounded(d, n, c);
    }
  }

  // ---------------------------------------------------------------- existence

  lemma {:induction false} LeastExists(nodes: map<Id, Node>, remaining: set<Id>) returns (m: Id)
    requires remaining <= nodes.Keys && remaining != {}
    ensures LeastByPosition(nodes, remaining, m)
    decreases remaining
  {
    m :| m in remaining;
    if remaining != {m} {
      var m' := LeastExists(nodes, remaining - {m});
      if !PositionLe(nodes[m], nodes[m']) { m := m'; }
    }
  }

  /** Any correct beginning can be completed to a layering. */
  lemma {:induction false} CompleteLayering(d: DepMap, nodes: map<Id, Node>, all: set<Id>, sim: set<Id>,
          begun: seq<seq<Id>>)
    returns (layers: seq<seq<Id>>)
    requires all <= d.Keys == nodes.Keys && LayersSoFar(d, nodes, all, sim, begun)
    ensures IsLayering(d, nodes, all, sim, layers) && begun <= layers
    decreases all - Covered(begun)
  {
    LayersPartition(d, nodes, all, sim, begun);
    var remaining, sim' := all - Covered(begun), sim + Covered(begun);
    if remaining == {} {
      layers := begun;
      assert forall n | n in all :: n !in remaining;
    } else {
      var layer := SetEnumerated(Unblocked(d, remaining, sim'));
      if Unblocked(d, remaining, sim') == {} {
        var m := LeastExists(nodes, remaining);
        layer := [m];
      }
      SoFarSnoc(d, nodes, all, sim, begun, layer);
      CoveredSnoc(begun, layer);
      LayerWithin(d, nodes, remaining, sim', layer);
      assert layer[0] in SetOf(layer);
      layers := CompleteLayering(d, nodes, all, sim, begun + [layer]);
    }
  }
}
