/** Every step of the scheduler keeps its invariant. */
module SchedulerInvariant {
  import opened Layering
  import opened Sequences
  import opened GeneratedNames
  import opened GraphModel
  import opened ExecutionLayers
  import opened ResumePrefix
  import opened PostStep
  import opened Scheduler
  import opened Wrappers

  // ---------------------------------------------------------------- orders

  lemma OrderingCovers(g: Graph, ids: seq<Id>)
    requires IsOrdering(g, ids)
    ensures NoDup(ids) && SetOf(ids) == g.nodes.Keys
  {
    hide Deps, LayersSoFar, Flatten;
    var layers :| IsLayering(Deps(g), g.nodes, g.nodes.Keys, g.completed, layers) && ids == Flatten(layers);
    LayersPartition(Deps(g), g.nodes, g.nodes.Keys, g.completed, layers);
  }

  /** Between iterations the ready nodes are exactly the next round. */
  lemma ReadyIsRound(s: State, k: nat)
    requires WorkOk(s.w) && Settled(s, Deps(s.w.g), k)
    ensures ReadyIds(s.w.g) == Layer(Deps(s.w.g), k)
    ensures NoDup(Ids(ReadyList(s.w.g))) && SetOf(Ids(ReadyList(s.w.g))) == Layer(Deps(s.w.g), k)
    ensures forall n | n in ReadyList(s.w.g) ::
      n.id in s.w.g.nodes && s.w.g.nodes[n.id] == n && n.id in Layer(Deps(s.w.g), k)
    ensures forall n | n in ReadyList(s.w.g) :: n.id !in s.w.g.completed
  {
    hide Deps, Valid, Agreement, ReadyList, Done, Ids;
    ReadyListCorrect(s.w.g);
    assert Ready(Deps(s.w.g), s.w.g.completed) == Layer(Deps(s.w.g), k);
  }

  lemma ReadyProcessable(s: State, k: nat, j: nat)
    requires WorkOk(s.w) && Settled(s, Deps(s.w.g), k) && j <= |ReadyList(s.w.g)|
    ensures Processable(s.w, ReadyList(s.w.g)[..j], k)
    ensures SetOf(Ids(ReadyList(s.w.g)[..j])) <= Layer(Deps(s.w.g), k)
    ensures j == |ReadyList(s.w.g)| ==> SetOf(Ids(ReadyList(s.w.g)[..j])) == Layer(Deps(s.w.g), k)
  {
    ReadyIsRound(s, k);
    hide Deps, ReadyList, Done, Layer, WorkOk, Settled;
    var ready := ReadyList(s.w.g);
    assert forall i | 0 <= i < j :: Ids(ready[..j])[i] == Ids(ready)[i];
    assert forall n | n in ready[..j] :: n in ready;
    assert ready[..|ready|] == ready;
  }

  // ---------------------------------------------------------------- growth keeps history

  lemma RoundsKept(d: DepMap, d': DepMap, k: nat, batches: seq<seq<Id>>)
    requires SameRounds(d, d', k) && BatchesAreRounds(d, batches) && |batches| <= k + 1
    ensures BatchesAreRounds(d', batches)
    ensures Done(d', k) == Done(d, k) && Layer(d', k) == Layer(d, k) && Done(d', k + 1) == Done(d, k + 1)
  {
    hide Done, Layer;
  }

  lemma RoundAdded(d: DepMap, batches: seq<seq<Id>>, batch: seq<Id>)
    requires BatchesAreRounds(d, batches)
    requires NoDup(batch) && SetOf(batch) == Layer(d, |batches|) && batch != []
    ensures BatchesAreRounds(d, batches + [batch])
  {
    hide Layer;
  }

  lemma GatesKept(nodes: map<Id, Node>, nodes': map<Id, Node>, done: set<Id>, granted: set<Id>)
    requires GatesGranted(nodes, done, granted) && NodesExtend(nodes, nodes')
    ensures GatesGranted(nodes', done, granted)
  {
  }

  lemma AgentsAdded(nodes: map<Id, Node>, done: set<Id>, granted: set<Id>, agents: set<Id>)
    requires GatesGranted(nodes, done, granted)
    requires forall n | n in agents :: n in nodes && !nodes[n].Approval() && n !in granted
    ensures GatesGranted(nodes, done + agents, granted)
  {
  }

  lemma GateAdded(nodes: map<Id, Node>, done: set<Id>, granted: set<Id>, gate: Id)
    requires GatesGranted(nodes, done, granted) && gate in nodes && nodes[gate].Approval()
    ensures GatesGranted(nodes, done + {gate}, granted + {gate})
  {
  }

  // ---------------------------------------------------------------- batches

  /** What processing results of round k does to the facts the invariant tracks. */
  lemma AdvancedFacts(s: State, w': Work, k: nat, done: set<Id>)
    requires Inv(s) && Settled(s, Deps(s.w.g), k) && k == |s.batches|
    requires Advanced(s.w, w', k, done)
    ensures WorkOk(w') && NamesOk(w'.g)
    ensures BatchesAreRounds(Deps(w'.g), s.batches)
    ensures Done(Deps(w'.g), k) == Done(Deps(s.w.g), k) && Layer(Deps(w'.g), k) == Layer(Deps(s.w.g), k)
    ensures Done(Deps(w'.g), k + 1) == Done(Deps(s.w.g), k + 1)
    ensures GatesGranted(w'.g.nodes, Done(Deps(w'.g), k), s.granted)
    ensures NodesExtend(s.w.g.nodes, w'.g.nodes)
    ensures w'.g.completed == s.w.g.completed + done && w'.g.failed == {}
  {
    hide Deps, Done, Layer, SameRounds, GatesGranted, BatchesAreRounds, WorkOk, NamesOk, Account, Sound, NodesExtend;
    hide TailOk;
    RoundsKept(Deps(s.w.g), Deps(w'.g), k, s.batches);
    GatesKept(s.w.g.nodes, w'.g.nodes, Done(Deps(s.w.g), k), s.granted);
  }

  lemma AgentsReady(s: State, k: nat)
    requires WorkOk(s.w) && Settled(s, Deps(s.w.g), k)
    requires FirstGate(ReadyList(s.w.g)).None?
    requires s.granted <= Done(Deps(s.w.g), k)
    ensures forall n | n in Layer(Deps(s.w.g), k) :: n in s.w.g.nodes && !s.w.g.nodes[n].Approval() && n !in s.granted
  {
    ReadyIsRound(s, k);
    var ready := ReadyList(s.w.g);
    hide Deps, ReadyList, Done, WorkOk, Settled, FirstGate;
    forall n | n in Layer(Deps(s.w.g), k)
      ensures n in s.w.g.nodes && !s.w.g.nodes[n].Approval() && n !in s.granted
    {
      assert n in SetOf(Ids(ready));
      var i :| 0 <= i < |ready| && Ids(ready)[i] == n;
      assert ready[i] in ready;
    }
  }

  /** What the invariant says between iterations. */
  lemma RunningFacts(s: State)
    requires Inv(s) && s.phase.Running?
    ensures var d, k := Deps(s.w.g), |s.batches|;
      && WorkOk(s.w) && NamesOk(s.w.g) && Settled(s, d, k)
      && BatchesAreRounds(d, s.batches) && GatesGranted(s.w.g.nodes, Done(d, k), s.granted)
      && s.granted <= Done(d, k)
  {
    hide Deps, WorkOk, NamesOk, Settled, BatchesAreRounds, TailOk;
  }

  /** What is left to show of the invariant after an iteration. */
  ghost predicate Iterated(s: State, s': State, executed: seq<Id>) {
    var d', k := Deps(s'.w.g), |s.batches|;
    && WorkOk(s'.w) && NamesOk(s'.w.g)
    && BatchesAreRounds(d', s.batches + [executed])
    && GatesGranted(s'.w.g.nodes, Done(d', k + 1), s.granted)
    && s'.w.g.failed == {} && s'.w.g.completed == Done(d', k + 1) && Layer(d', k + 1) <= s'.w.g.nodes.Keys
    && NoDup(s'.sorted) && SetOf(s'.sorted) == s'.w.g.nodes.Keys
  }

  lemma IteratedInv(s: State, s': State, executed: seq<Id>)
    requires Inv(s) && s.phase.Running? && Iterated(s, s', executed)
    requires s' == s.(w := s'.w, sorted := s'.sorted, batches := s.batches + [executed])
    ensures Inv(s')
  {
    hide Deps, WorkOk, NamesOk, BatchesAreRounds, GatesGranted, Done, Layer;
  }

  lemma CompletesIterated(s: State, s': State, executed: seq<Id>, plans: Id -> Plan)
    requires Inv(s) && BatchCompletes(s, s', executed, plans)
    ensures Iterated(s, s', executed)
  {
    hide Inv, Deps, ReadyList, FirstGate, WorkOk, NamesOk, BatchesAreRounds, GatesGranted, IsOrdering, ProcessAll;
    hide Settled, Advanced, Processable, Done, Layer;
    var k, d, d' := |s.batches|, Deps(s.w.g), Deps(s'.w.g);
    RunningFacts(s);
    ReadyIsRound(s, k);
    AgentsReady(s, k);
    ReadyProcessable(s, k, |ReadyList(s.w.g)|);
    assert ReadyList(s.w.g)[..|ReadyList(s.w.g)|] == ReadyList(s.w.g);
    ProcessAllAdvances(s.w, ReadyList(s.w.g), plans, k);
    AdvancedFacts(s, s'.w, k, Layer(d, k));
    OrderingCovers(s'.w.g, s'.sorted);
    assert Ids(ReadyList(s.w.g))[0] in SetOf(executed);
    RoundAdded(d', s.batches, executed);
    AgentsStay(s.w.g.nodes, s'.w.g.nodes, Layer(d, k));
    AgentsAdded(s'.w.g.nodes, Done(d', k), s.granted, Layer(d, k));
    RoundWithin(d', k + 1);
    NextDone(d, k);
    NextDone(d', k);
    SettledCompleted(s, d, k);
  }

  lemma SettledCompleted(s: State, d: DepMap, k: nat)
    requires Settled(s, d, k)
    ensures s.w.g.completed == Done(d, k)
  {
    hide Done, Layer;
  }

  lemma AgentsStay(nodes: map<Id, Node>, nodes': map<Id, Node>, agents: set<Id>)
    requires NodesExtend(nodes, nodes') && forall n | n in agents :: n in nodes && !nodes[n].Approval()
    ensures forall n | n in agents :: n in nodes' && !nodes'[n].Approval()
  {
  }

  lemma CompletesInv(s: State, s': State, executed: seq<Id>, plans: Id -> Plan)
    requires Inv(s) && BatchCompletes(s, s', executed, plans)
    ensures Inv(s')
  {
    CompletesIterated(s, s', executed, plans);
    hide Inv, Iterated, ReadyList, ProcessAll, IsOrdering, FirstGate;
    IteratedInv(s, s', executed);
  }

  lemma NextDone(d: DepMap, k: nat)
    ensures Done(d, k + 1) == Done(d, k) + Layer(d, k)
  {
  }

  lemma RoundWithin(d: DepMap, k: nat)
    ensures Layer(d, k) <= d.Keys
  {
  }

  lemma BreaksInv(s: State, s': State, executed: seq<Id>, plans: Id -> Plan, j: nat, status: Status)
    requires Inv(s) && BatchBreaks(s, s', executed, plans, j, status)
    ensures Inv(s')
  {
    var k, ready := |s.batches|, ReadyList(s.w.g);
    ReadyIsRound(s, k);
    AgentsReady(s, k);
    ReadyProcessable(s, k, j);
    ProcessAllAdvances(s.w, ready[..j], plans, k);
    var w1 := ProcessAll(s.w, ready[..j], plans);
    AdvancedFacts(s, w1, k, SetOf(Ids(ready[..j])));
    FailedKeeps(w1, s'.w.g.failed);
    assert s'.w == w1.(g := w1.g.(failed := s'.w.g.failed));
    TailFits(Deps(s.w.g), s.w.g.nodes, s'.w.g.nodes, k, executed);
  }

  lemma TailFits(d: DepMap, nodes: map<Id, Node>, nodes': map<Id, Node>, k: nat, tail: seq<Id>)
    requires NoDup(tail) && SetOf(tail) <= Layer(d, k) && NodesExtend(nodes, nodes')
    requires forall n | n in Layer(d, k) :: n in nodes && !nodes[n].Approval()
    ensures forall n | n in tail :: n in nodes' && !nodes'[n].Approval()
  {
    assert forall n | n in tail :: n in SetOf(tail);
  }

  lemma FailedKeeps(w: Work, failed: set<Id>)
    requires WorkOk(w) && NamesOk(w.g)
    ensures var w' := w.(g := w.g.(failed := failed));
      WorkOk(w') && NamesOk(w'.g) && Deps(w'.g) == Deps(w.g)
  {
    assert Mentions(w.g.(failed := failed)) == Mentions(w.g);
  }

  // ---------------------------------------------------------------- pause and resume

  /** The graph of a resumed run: the checkpoint's nodes and edges with `completed` marked. */
  function Remarked(s: State, completed: set<Id>): Graph {
    Graph(s.sorted, s.w.g.nodes, s.w.edges, completed, {})
  }

  lemma RemarkedDeps(s: State, completed: set<Id>)
    requires WorkOk(s.w)
    ensures Deps(Remarked(s, completed)) == Deps(s.w.g)
  {
  }

  function Sub(nodes: map<Id, Node>, ids: seq<Id>): map<Id, Node>
    requires SetOf(ids) <= nodes.Keys
  {
    map n | n in SetOf(ids) :: nodes[n]
  }

  lemma NodesAtFront(nodes: map<Id, Node>, ids: seq<Id>)
    requires ids != [] && NoDup(ids) && SetOf(ids) <= nodes.Keys
    ensures var init, last := ids[..|ids| - 1], ids[|ids| - 1];
      && NoDup(init) && SetOf(init) <= nodes.Keys && last in nodes && last !in SetOf(init)
      && SetOf(ids) == SetOf(init) + {last}
      && NodesAt(nodes, ids) == NodesAt(nodes, init) + [nodes[last]]
      && Sub(nodes, ids) == Sub(nodes, init)[last := nodes[last]]
  {
    var init, last := ids[..|ids| - 1], ids[|ids| - 1];
    assert ids == init + [last];
    SetOfConcat(init, [last]);
    assert last in SetOf(ids);
    assert last !in SetOf(init);
  }

  lemma {:induction false} BuildPrefix(nodes: map<Id, Node>, ids: seq<Id>, es: seq<Edge>)
    requires NoDup(ids) && SetOf(ids) <= nodes.Keys
    requires forall n | n in nodes :: nodes[n].id == n && n != ""
    ensures Build(NodesAt(nodes, ids), es) == Graph(ids, Sub(nodes, ids), es, {}, {})
  {
    if ids == [] {
    } else {
      hide SetOf, NoDup, Sub, NodesAt;
      var init, last := ids[..|ids| - 1], ids[|ids| - 1];
      NodesAtFront(nodes, ids);
      BuildPrefix(nodes, init, es);
      var front := NodesAt(nodes, init);
      assert (front + [nodes[last]])[..|front + [nodes[last]]| - 1] == front;
      assert ids == init + [last];
      assert last !in Sub(nodes, init) by { SubKeys(nodes, init); }
    }
  }

  lemma SubKeys(nodes: map<Id, Node>, ids: seq<Id>)
    requires SetOf(ids) <= nodes.Keys
    ensures Sub(nodes, ids).Keys == SetOf(ids)
  {
  }

  /** The graph rebuilt from a checkpoint has the same nodes and the same dependencies. */
  lemma RebuiltSame(s: State)
    requires WorkOk(s.w) && NoDup(s.sorted) && SetOf(s.sorted) == s.w.g.nodes.Keys
    ensures Rebuilt(s) == Graph(s.sorted, s.w.g.nodes, s.w.edges, {}, {})
    ensures Deps(Rebuilt(s)) == Deps(s.w.g)
  {
    BuildPrefix(s.w.g.nodes, s.sorted, s.w.edges);
    assert Sub(s.w.g.nodes, s.sorted) == s.w.g.nodes;
    RemarkedDeps(s, {});
  }

  lemma RebuiltOk(s: State, completed: set<Id>)
    requires WorkOk(s.w) && NamesOk(s.w.g) && NoDup(s.sorted) && SetOf(s.sorted) == s.w.g.nodes.Keys
    requires s.w.g.completed <= completed
    ensures var g := Graph(s.sorted, s.w.g.nodes, s.w.edges, completed, {});
      WorkOk(s.w.(g := g)) && NamesOk(g)
  {
    var g := Graph(s.sorted, s.w.g.nodes, s.w.edges, completed, {});
    FewerMentions(s.w, g);
    hide Mentions, Ending, Rooted;
  }

  lemma FewerMentions(w: Work, g: Graph)
    requires Agreement(w.g.nodes, w.g.edges, w.edges) && g.nodes == w.g.nodes && g.edges == w.edges
    ensures Mentions(g) <= Mentions(w.g)
  {
    forall e | e in g.edges ensures e.source in Mentions(w.g) && e.target in Mentions(w.g) {
      assert e.source in (set x | x in w.g.edges :: x.source);
      assert e.target in (set x | x in w.g.edges :: x.target);
    }
  }

  lemma OrderFromScratch(s: State, ids: seq<Id>)
    requires WorkOk(s.w) && IsOrdering(Remarked(s, {}), ids)
    ensures ScratchOrder(Deps(s.w.g), s.w.g.nodes, ids)
  {
    RemarkedDeps(s, {});
  }

  /** What a resume from a gate alone in its layer makes of the state. */
  lemma ResumeShape(s: State, s': State, ids: seq<Id>)
    requires Inv(s) && Resume(s, s', ids)
    ensures var d, gate := Deps(s.w.g), s.phase.gate;
      && Layer(d, |s.batches|) == {gate} && gate in s.w.g.nodes && s.w.g.nodes[gate].Approval()
      && s'.w == s.w.(g := Remarked(s, Done(d, |s.batches|) + {gate}))
      && NoDup(s'.sorted) && SetOf(s'.sorted) == s.w.g.nodes.Keys
  {
    var k, d, gate := |s.batches|, Deps(s.w.g), s.phase.gate;
    ReadyIsRound(s, k);
    RebuiltSame(s);
    hide Deps, Done, Layer, WorkOk, NamesOk, IsOrdering, GatesGranted, BatchesAreRounds, TailOk, ReadyIds, ScratchOrder;
    OrderFromScratch(s, ids);
    AloneMarksExactly(d, s.w.g.nodes, k, gate, ids);
    OrderingCovers(Rebuilt(s), ids);
  }

  lemma RoundOfOne(d: DepMap, k: nat, gate: Id)
    requires Layer(d, k) == {gate}
    ensures Done(d, k + 1) == Done(d, k) + {gate} && SetOf([gate]) == {gate}
  {
  }

  lemma RunningInv(s: State, d: DepMap, k: nat)
    requires d == Deps(s.w.g) && k == |s.batches| && s.phase.Running? && s.tail == [] && s.w.g.failed == {}
    requires WorkOk(s.w) && NamesOk(s.w.g) && BatchesAreRounds(d, s.batches)
    requires s.w.g.completed == Done(d, k) && GatesGranted(s.w.g.nodes, Done(d, k), s.granted)
    requires NoDup(s.sorted) && SetOf(s.sorted) == s.w.g.nodes.Keys
    ensures Inv(s)
  {
    hide Deps, Done, WorkOk, NamesOk, GatesGranted, BatchesAreRounds;
    RoundWithin(d, k);
  }

  /** Resuming from a gate that was alone among the ready nodes keeps the invariant. */
  lemma ResumeInv(s: State, s': State, ids: seq<Id>)
    requires Inv(s) && Resume(s, s', ids)
    ensures Inv(s')
  {
    var k, d, gate := |s.batches|, Deps(s.w.g), s.phase.gate;
    ResumeShape(s, s', ids);
    hide Deps, Done, Layer, WorkOk, NamesOk, IsOrdering, GatesGranted, BatchesAreRounds, ReadyIds, Rebuilt;
    RoundOfOne(d, k, gate);
    RebuiltOk(s, Done(d, k) + {gate});
    RemarkedDeps(s, Done(d, k) + {gate});
    RoundAdded(d, s.batches, [gate]);
    GateAdded(s.w.g.nodes, Done(d, k), s.granted, gate);
    RunningInv(s', d, k + 1);
  }

  // ---------------------------------------------------------------- all steps

  lemma InitInv(s: State)
    requires Init(s)
    ensures Inv(s)
  {
    OrderingCovers(s.w.g, s.sorted);
    RoundWithin(Deps(s.w.g), 0);
  }

  lemma PauseInv(s: State, s': State)
    requires Inv(s) && (SafetyStop(s, s') || NothingReady(s, s') || Pause(s, s'))
    ensures Inv(s')
  {
    ReadyIsRound(s, |s.batches|);
    if NothingReady(s, s') {
      assert Ids(ReadyList(s.w.g)) == [];
    }
  }

  lemma {:induction false} NextInv(s: State, s': State)
    requires Inv(s) && Next(s, s')
    ensures Inv(s')
  {
    hide Inv, SafetyStop, NothingReady, Pause, Resume, BatchCompletes, BatchBreaks, BatchRan, ReadyList;
    if SafetyStop(s, s') || NothingReady(s, s') || Pause(s, s') {
      PauseInv(s, s');
    } else if exists ids :: Resume(s, s', ids) {
      var ids :| Resume(s, s', ids);
      ResumeInv(s, s', ids);
    } else {
      var results, executed, plans :| BatchStep(s, s', results, executed, plans);
      var j := GoodPrefix(results);
      if j == |results| {
        CompletesInv(s, s', executed, plans);
      } else {
        BreaksInv(s, s', executed, plans, j, results[j]);
      }
    }
  }

  /** Every state of every run satisfies the invariant. */
  lemma {:induction false} RunInv(ss: seq<State>, i: nat)
    requires IsRun(ss) && i < |ss|
    ensures Inv(ss[i])
  {
    if i == 0 {
      InitInv(ss[0]);
    } else {
      hide Inv, Next, Init;
      RunInv(ss, i - 1);
      NextInv(ss[i - 1], ss[i]);
    }
  }
}
