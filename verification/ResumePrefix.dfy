/** Resuming marks the first `current_idx` entries of a fresh `ordered_nodes` as done.  When is
    that exactly the work done before the pause plus the gate, and which node does the saved
    order name as the approved one? */
module ResumePrefix {
  import opened Layering
  import opened Sequences
  import opened GraphModel
  import opened ExecutionLayers

  lemma {:induction false} SoFarPrefix(d: DepMap, nodes: map<Id, Node>, all: set<Id>, sim: set<Id>,
                                       layers: seq<seq<Id>>, i: nat)
    requires all <= d.Keys == nodes.Keys && LayersSoFar(d, nodes, all, sim, layers) && i <= |layers|
    ensures LayersSoFar(d, nodes, all, sim, layers[..i])
  {
    forall j | 0 <= j < i
      ensures LayerFrom(d, nodes, all - Covered(layers[..i][..j]), sim + Covered(layers[..i][..j]), layers[..i][j])
    {
      assert layers[..i][..j] == layers[..j];
    }
  }

  /** The first |Covered| entries of the flat order are exactly what the first i passes cover. */
  lemma PrefixIsCovered(d: DepMap, nodes: map<Id, Node>, all: set<Id>, sim: set<Id>, layers: seq<seq<Id>>, i: nat)
    requires all <= d.Keys == nodes.Keys && LayersSoFar(d, nodes, all, sim, layers) && i <= |layers|
    ensures |Covered(layers[..i])| == |Flatten(layers[..i])| <= |Flatten(layers)|
    ensures Flatten(layers)[..|Covered(layers[..i])|] == Flatten(layers[..i])
  {
    SoFarPrefix(d, nodes, all, sim, layers, i);
    LayersPartition(d, nodes, all, sim, layers[..i]);
    NoDupCardinality(Flatten(layers[..i]));
    FlattenPrefix(layers, i);
  }

  /** `ids` is a possible fresh `ordered_nodes`: nothing completed yet. */
  ghost predicate ScratchOrder(d: DepMap, nodes: map<Id, Node>, ids: seq<Id>)
    requires d.Keys == nodes.Keys
  {
    exists layers :: IsLayering(d, nodes, d.Keys, {}, layers) && ids == Flatten(layers)
  }

  lemma LayersPrefix(d: DepMap, nodes: map<Id, Node>, layers: seq<seq<Id>>, k: nat)
    requires d.Keys == nodes.Keys && IsLayering(d, nodes, d.Keys, {}, layers) && Layer(d, k) != {}
    ensures k < |layers|
    ensures Covered(layers[..k]) == Done(d, k)
    ensures SetOf(layers[k]) == Layer(d, k)
  {
    EnoughPasses(d, nodes, layers, k + 1);
    RanBefore(d, if k > 0 then k - 1 else 0, k);
    PassesCoverRounds(d, nodes, layers, k);
    PassIsRound(d, nodes, layers, k);
  }

  /** In a fresh order the first |Done(d, k)| entries are the first k rounds, and the next entry
      belongs to round k. */
  lemma {:induction false} ScratchOrderPrefix(d: DepMap, nodes: map<Id, Node>, ids: seq<Id>, k: nat)
    requires d.Keys == nodes.Keys && ScratchOrder(d, nodes, ids) && Layer(d, k) != {}
    ensures |Done(d, k)| < |ids|
    ensures SetOf(ids[..|Done(d, k)|]) == Done(d, k)
    ensures ids[|Done(d, k)|] in Layer(d, k)
  {
    var layers :| IsLayering(d, nodes, d.Keys, {}, layers) && ids == Flatten(layers);
    LayersPrefix(d, nodes, layers, k);
    EntryAfterPrefix(d, nodes, layers, k);
  }

  lemma EntryAfterPrefix(d: DepMap, nodes: map<Id, Node>, layers: seq<seq<Id>>, k: nat)
    requires d.Keys == nodes.Keys && LayersSoFar(d, nodes, d.Keys, {}, layers) && k < |layers|
    ensures |Covered(layers[..k])| < |Flatten(layers)|
    ensures SetOf(Flatten(layers)[..|Covered(layers[..k])|]) == Covered(layers[..k])
    ensures layers[k] != [] && Flatten(layers)[|Covered(layers[..k])|] == layers[k][0]
    ensures layers[k][0] in SetOf(layers[k])
  {
    hide Flatten, LayerFrom, LayersSoFar;
    PrefixIsCovered(d, nodes, d.Keys, {}, layers, k);
    PrefixIsCovered(d, nodes, d.Keys, {}, layers, k + 1);
    LayersPartition(d, nodes, d.Keys, {}, layers);
    assert layers[..k + 1] == layers[..k] + [layers[k]];
    FlattenSnoc(layers[..k], layers[k]);
    var flat, m := Flatten(layers), |Covered(layers[..k])|;
    assert flat[..|Flatten(layers[..k + 1])|] == Flatten(layers[..k]) + layers[k];
    assert flat[m] == flat[..|Flatten(layers[..k + 1])|][m];
  }

  /** Any node of round k can come first in its layer. */
  lemma OrderPutsFirst(d: DepMap, nodes: map<Id, Node>, k: nat, o: Id) returns (ids: seq<Id>)
    requires d.Keys == nodes.Keys && o in Layer(d, k)
    ensures ScratchOrder(d, nodes, ids) && |Done(d, k)| < |ids| && ids[|Done(d, k)|] == o
  {
    hide Done, Layer, Ready, Flatten, Covered, LayerFrom, LayersSoFar;
    var some := CompleteLayering(d, nodes, d.Keys, {}, []);
    EnoughPasses(d, nodes, some, k + 1);
    RanBefore(d, if k > 0 then k - 1 else 0, k);
    PassesCoverRounds(d, nodes, some, k);
    SoFarPrefix(d, nodes, d.Keys, {}, some, k);
    var begun := some[..k];
    var layer := LayerStartingWith(Layer(d, k), o);
    RoundIsPass(d, nodes, begun, k, layer);
    SoFarSnoc(d, nodes, d.Keys, {}, begun, layer);
    var layers := CompleteLayering(d, nodes, d.Keys, {}, begun + [layer]);
    assert layers[..k] == begun && layers[k] == layer;
    EntryAfterPrefix(d, nodes, layers, k);
    ids := Flatten(layers);
  }

  lemma LayerStartingWith(xs: set<Id>, o: Id) returns (layer: seq<Id>)
    requires o in xs
    ensures NoDup(layer) && SetOf(layer) == xs && layer[0] == o
  {
    var rest := SetEnumerated(xs - {o});
    NoDupConcat([o], rest);
    SetOfConcat([o], rest);
    layer := [o] + rest;
  }

  lemma RoundIsPass(d: DepMap, nodes: map<Id, Node>, begun: seq<seq<Id>>, k: nat, layer: seq<Id>)
    requires d.Keys == nodes.Keys && Covered(begun) == Done(d, k)
    requires NoDup(layer) && SetOf(layer) == Layer(d, k) != {}
    ensures LayerFrom(d, nodes, d.Keys - Covered(begun), {} + Covered(begun), layer)
  {
    UnblockedIsReady(d, Done(d, k));
  }

  /** Marking the first `count` entries of `ids` marks exactly `done` and the gate. */
  predicate MarksExactly(ids: seq<Id>, count: nat, done: set<Id>, gate: Id) {
    count <= |ids| && SetOf(ids[..count]) == done + {gate}
  }

  lemma PrefixAndNext(ids: seq<Id>, m: nat, done: set<Id>)
    requires m < |ids| && SetOf(ids[..m]) == done
    ensures MarksExactly(ids, m + 1, done, ids[m])
  {
    assert ids[..m + 1] == ids[..m] + [ids[m]];
    SetOfConcat(ids[..m], [ids[m]]);
  }

  lemma AloneMarksExactly(d: DepMap, nodes: map<Id, Node>, k: nat, gate: Id, ids: seq<Id>)
    requires d.Keys == nodes.Keys && Layer(d, k) == {gate} && ScratchOrder(d, nodes, ids)
    ensures MarksExactly(ids, |Done(d, k)| + 1, Done(d, k), gate)
  {
    ScratchOrderPrefix(d, nodes, ids, k);
    PrefixAndNext(ids, |Done(d, k)|, Done(d, k));
  }

  lemma SharedMarksOther(d: DepMap, nodes: map<Id, Node>, k: nat, gate: Id, o: Id) returns (ids: seq<Id>)
    requires d.Keys == nodes.Keys && o in Layer(d, k) && o != gate
    ensures ScratchOrder(d, nodes, ids) && !MarksExactly(ids, |Done(d, k)| + 1, Done(d, k), gate)
  {
    ids := OrderPutsFirst(d, nodes, k, o);
    assert ids[|Done(d, k)|] in SetOf(ids[..|Done(d, k)| + 1]);
  }

  /** Resume is exact for every set-iteration order if and only if the gate is alone in its layer,
      which is to say alone in the ready set at the pause. */
  lemma {:induction false} ResumeExactIffGateAlone(d: DepMap, nodes: map<Id, Node>, k: nat, gate: Id)
    requires d.Keys == nodes.Keys && gate in Layer(d, k)
    ensures (forall ids | ScratchOrder(d, nodes, ids) :: MarksExactly(ids, |Done(d, k)| + 1, Done(d, k), gate))
       <==> Layer(d, k) == {gate}
  {
    hide *;
    if Layer(d, k) == {gate} {
      forall ids | ScratchOrder(d, nodes, ids)
        ensures MarksExactly(ids, |Done(d, k)| + 1, Done(d, k), gate)
      {
        AloneMarksExactly(d, nodes, k, gate, ids);
      }
    } else {
      var o :| o in Layer(d, k) && o != gate;
      var ids := SharedMarksOther(d, nodes, k, gate, o);
    }
  }

  /** With a set `done` completed, the saved order puts `done` and the ready nodes into one first
      layer; its entry |done| is what the resume records as the approved node.  It is the gate in
      every order if and only if nothing had been completed when the order was taken. */
  lemma {:induction false} RecordedApprovalIffNothingDone(d: DepMap, nodes: map<Id, Node>, k: nat, gate: Id)
    requires d.Keys == nodes.Keys && Layer(d, k) == {gate}
    ensures (forall layers | IsLayering(d, nodes, d.Keys, Done(d, k), layers) ::
               |Done(d, k)| < |Flatten(layers)| && Flatten(layers)[|Done(d, k)|] == gate)
       <==> Done(d, k) == {}
  {
    var done := Done(d, k);
    SavedFirstLayer(d, k);
    NothingDoneOrNot(d, nodes, done, gate);
  }

  lemma SavedFirstLayer(d: DepMap, k: nat)
    ensures Done(d, k) <= d.Keys
    ensures Unblocked(d, d.Keys - {}, Done(d, k) + {}) == Done(d, k) + Layer(d, k)
  {
    DoneDownClosed(d, k);
    if k > 0 { DoneMonotone(d, k - 1, k); }
    assert Done(d, k) + {} == Done(d, k);
  }

  lemma FirstPass(d: DepMap, nodes: map<Id, Node>, done: set<Id>, layers: seq<seq<Id>>)
    requires d.Keys == nodes.Keys && IsLayering(d, nodes, d.Keys, done, layers)
    requires Unblocked(d, d.Keys - {}, done + {}) != {}
    ensures |layers| > 0 && NoDup(layers[0]) && SetOf(layers[0]) == Unblocked(d, d.Keys - {}, done + {})
    ensures layers[0] <= Flatten(layers)
  {
    assert Covered([]) == {};
    var n :| n in Unblocked(d, d.Keys - {}, done + {});
    assert n in Covered(layers);
    assert layers[..0] == [];
    assert LayerFrom(d, nodes, d.Keys - {}, done + {}, layers[0]);
    assert layers[..1] == [] + [layers[0]];
    FlattenSnoc([], layers[0]);
    FlattenPrefix(layers, 1);
  }

  lemma NothingDoneOrNot(d: DepMap, nodes: map<Id, Node>, done: set<Id>, gate: Id)
    requires d.Keys == nodes.Keys && gate in d && gate !in done
    requires Unblocked(d, d.Keys - {}, done + {}) == done + {gate}
    ensures (forall layers | IsLayering(d, nodes, d.Keys, done, layers) ::
               |done| < |Flatten(layers)| && Flatten(layers)[|done|] == gate)
       <==> done == {}
  {
    if done == {} {
      forall layers | IsLayering(d, nodes, d.Keys, done, layers)
        ensures 0 < |Flatten(layers)| && Flatten(layers)[0] == gate
      {
        FirstPass(d, nodes, done, layers);
        assert gate in SetOf(layers[0]);
        assert layers[0][0] in SetOf(layers[0]);
        assert Flatten(layers)[0] == layers[0][0];
      }
    } else {
      var layers := GateFirst(d, nodes, done, gate);
      assert |done| > 0;
      if |done| < |Flatten(layers)| && Flatten(layers)[|done|] == gate {
        LayersPartition(d, nodes, d.Keys, done, layers);
      }
    }
  }

  lemma GateFirst(d: DepMap, nodes: map<Id, Node>, done: set<Id>, gate: Id) returns (layers: seq<seq<Id>>)
    requires d.Keys == nodes.Keys && gate in d && gate !in done
    requires Unblocked(d, d.Keys - {}, done + {}) == done + {gate}
    ensures IsLayering(d, nodes, d.Keys, done, layers) && Flatten(layers) != [] && Flatten(layers)[0] == gate
  {
    var layer := LayerStartingWith(done + {gate}, gate);
    assert Covered([]) == {};
    SoFarSnoc(d, nodes, d.Keys, done, [], layer);
    layers := CompleteLayering(d, nodes, d.Keys, done, [] + [layer]);
    assert layers[0] == layer;
    FirstPass(d, nodes, done, layers);
    assert Flatten(layers)[0] == layer[0];
  }
}
