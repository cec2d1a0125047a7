/** `_execute_nodes_adaptive`: the scheduler loop over the mutable graph.  Whatever the environment
    does, the states the loop passes through form a run of the Scheduler state machine, so the
    theorems about runs hold of the code. */
module Engine {
  import opened Layering
  import opened Sequences
  import opened GraphModel
  import opened GeneratedNames
  import opened ExecutionLayers
  import opened ResumePrefix
  import opened PostStep
  import opened Scheduler
  import opened SchedulerInvariant
  import opened SchedulerTheorems
  import opened AdaptiveGraph
  import opened BatchRunner
  import opened EnginePasses
  import opened PostStepEffects
  import opened Decomposition
  import opened Wrappers

  /** The part of a saved checkpoint that the scheduler reads back. */
  datatype Checkpoint = Checkpoint(currentIdx: nat, nodes: seq<Node>, edges: seq<Edge>)

  datatype Outcome = Ended(status: Status) | WaitingApproval(checkpoint: Checkpoint)

  /** Counters kept in the workflow memory across pauses. */
  datatype Memory = Memory(spawned: nat, budget: nat)

  function StartState(g: Graph, edges: seq<Edge>, m: Memory, sorted: seq<Id>): State {
    State(Work(g, edges, m.spawned, m.budget), sorted, [], [], {}, Running)
  }

  /** The memory and checkpoint belong to the pause that `s` describes. */
  ghost predicate PausedAs(s: State, c: Checkpoint, m: Memory) {
    && s.phase.Waiting?
    && c.currentIdx == |s.w.g.completed| + 1
    && SetOf(s.sorted) <= s.w.g.nodes.Keys && c.nodes == NodesAt(s.w.g.nodes, s.sorted)
    && c.edges == s.w.edges
    && m == Memory(s.w.spawned, s.w.budget)
  }

  ghost predicate RunEnds(run: seq<State>, o: Outcome, m: Memory) {
    && IsRun(run)
    && match o
       case Ended(status) => Last(run).phase == Finished(status) && m == Memory(Last(run).w.spawned, Last(run).w.budget)
       case WaitingApproval(c) => PausedAs(Last(run), c, m)
  }

  lemma RunSnoc(run: seq<State>, s: State)
    requires IsRun(run) && Next(Last(run), s)
    ensures IsRun(run + [s]) && Last(run + [s]) == s
  {
    hide Next, Init;
  }

  // ---------------------------------------------------------------- pieces of the loop

  /** `[n for n in ready if n.id not in processed]` */
  method NotProcessed(ready: seq<Node>, processed: set<Id>) returns (r: seq<Node>)
    ensures (forall n | n in ready :: n.id !in processed) ==> r == ready
    ensures forall n | n in r :: n in ready && n.id !in processed
  {
    r := [];
    for i := 0 to |ready|
      invariant (forall n | n in ready :: n.id !in processed) ==> r == ready[..i]
      invariant forall n | n in r :: n in ready && n.id !in processed
    {
      if ready[i].id !in processed { r := r + [ready[i]]; }
    }
  }

  method FindGate(ns: seq<Node>) returns (r: Option<Node>)
    ensures r == FirstGate(ns)
  {
    for i := 0 to |ns|
      invariant FirstGate(ns) == FirstGate(ns[i..])
    {
      if ns[i].Approval() { return Some(ns[i]); }
    }
    return None;
  }

  /** `_process_completed_node` */
  method ProcessCompletedNode(graph: AdaptiveExecutionGraph, node: Node, edges: seq<Edge>, m: Memory, plan: Plan)
    returns (edges': seq<Edge>, m': Memory)
    requires graph.Consistent()
    modifies graph`order, graph`nodes, graph`edges, graph`deps, graph`completed
    ensures graph.Consistent()
    ensures Work(graph.View(), edges', m'.spawned, m'.budget)
         == ProcessCompleted(Work(old(graph.View()), edges, m.spawned, m.budget), node, plan)
    ensures node.id in old(graph.nodes) ==>
              Processed(Work(old(graph.View()), edges, m.spawned, m.budget),
                        Work(graph.View(), edges', m'.spawned, m'.budget), node, plan)
  {
    hide InsertNode, Processed, Valid, Deps;
    EffectOf(Work(graph.View(), edges, m.spawned, m.budget), node, plan);
    edges', m' := edges, m;
    graph.MarkCompleted(node.id);
    if !node.subgoal && m.spawned < MAX_RUNTIME_SPAWNED && plan.subgoals >= 2 {
      var first := graph.SpawnChildAgent(node, ChildSuffix(false));
      var second := graph.SpawnChildAgent(node, ChildSuffix(true));
      m' := m'.(spawned := m.spawned + 2);
    }
    if plan.retry.Some? && m.budget > 0 {
      var r := plan.retry.value;
      var recovery := RecoveryNode(node, KindText(r.kind), AttemptText(r.again));
      edges' := edges + [Edge(node.id, recovery.id)];
      m' := m'.(budget := m.budget - 1);
      if recovery.id !in graph.nodes {
        assert [recovery][..0] == [];
        graph.InsertNodes([recovery], node.id);
      }
    }
  }

  lemma EffectOf(w: Work, node: Node, plan: Plan)
    requires Valid(w.g)
    ensures node.id in w.g.nodes ==> Processed(w, ProcessCompleted(w, node, plan), node, plan)
  {
    hide Processed, ProcessCompleted;
    if node.id in w.g.nodes { ProcessEffect(w, node, plan); }
  }

  /** The work after a batch: the results before the first one that is not completed are
      processed, and if that one failed its node is marked. */
  function AfterResults(w: Work, results: seq<(Node, Status)>, plans: Id -> Plan): Work {
    var k := GoodPrefix(Statuses(results));
    var w1 := ProcessAll(w, NodesOf(results)[..k], plans);
    if k < |results| && results[k].1 == Failed then FailNode(w1, results[k].0.id) else w1
  }

  function FailNode(w: Work, id: Id): Work {
    w.(g := w.g.(failed := w.g.failed + {id}))
  }

  lemma ProcessAllNext(w: Work, ns: seq<Node>, plans: Id -> Plan, i: nat)
    requires i < |ns|
    ensures ProcessAll(w, ns[..i + 1], plans) == ProcessCompleted(ProcessAll(w, ns[..i], plans), ns[i], plans(ns[i].id))
  {
    assert ns[..i + 1][..i] == ns[..i];
  }

  lemma MarksNode(w: Work, node: Node, plan: Plan)
    ensures ProcessCompleted(w, node, plan).g.completed == w.g.completed + {node.id}
  {
  }

  /** These are nodes of the graph as it holds them. */
  predicate InGraph(nodes: map<Id, Node>, ns: seq<Node>) {
    forall n | n in ns :: n.id in nodes && nodes[n.id] == n
  }

  lemma NothingProcessed(w: Work, ns: seq<Node>, plans: Id -> Plan)
    ensures ProcessAll(w, ns[..0], plans) == w
  {
  }

  lemma AfterResultsAt(w: Work, results: seq<(Node, Status)>, plans: Id -> Plan)
    ensures var k := GoodPrefix(Statuses(results));
      && k <= |results|
      && var w1 := ProcessAll(w, NodesOf(results)[..k], plans);
         AfterResults(w, results, plans)
           == if k < |results| && results[k].1 == Failed then FailNode(w1, results[k].0.id) else w1
  {
    hide ProcessAll, FailNode;
  }

  /** The loop over the batch results.  `broken` is the first status other than completed. */
  method ProcessResults(graph: AdaptiveExecutionGraph, results: seq<(Node, Status)>, edges: seq<Edge>, m: Memory,
                        processed: set<Id>, plans: Id -> Plan)
    returns (edges': seq<Edge>, m': Memory, processed': set<Id>, sorted: seq<Node>, broken: Option<Status>)
    requires graph.Consistent() && results != [] && processed == graph.completed
    modifies graph`order, graph`nodes, graph`edges, graph`deps, graph`completed, graph`failed
    ensures graph.Consistent()
    ensures Work(graph.View(), edges', m'.spawned, m'.budget)
         == AfterResults(Work(old(graph.View()), edges, m.spawned, m.budget), results, plans)
    ensures var k := GoodPrefix(Statuses(results));
            && (broken == if k == |results| then None else Some(results[k].1))
            && (broken.None? ==> processed' == graph.completed)
            && (broken.None? ==> IsOrdering(graph.View(), Ids(sorted)) && InGraph(graph.nodes, sorted))
  {
    hide ProcessCompleted, ProcessAll, IsOrdering, GoodPrefix, Valid, Deps, AfterResults, Statuses;
    ghost var w0, ns := Work(graph.View(), edges, m.spawned, m.budget), NodesOf(results);
    NothingProcessed(w0, ns, plans);
    edges', m', processed', sorted, broken := edges, m, processed, [], None;
    for i := 0 to |results|
      invariant graph.Consistent() && processed' == graph.completed
      invariant CompletedBefore(results, i)
      invariant Work(graph.View(), edges', m'.spawned, m'.budget) == ProcessAll(w0, ns[..i], plans)
      invariant i > 0 ==> IsOrdering(graph.View(), Ids(sorted)) && InGraph(graph.nodes, sorted)
    {
      var (node, status) := results[i];
      processed' := processed' + {node.id};
      if status == Cancelled {
        GoodPrefixIs(results, i);
        AfterResultsAt(w0, results, plans);
        return edges', m', processed', sorted, Some(Cancelled);
      }
      if status == Failed {
        GoodPrefixIs(results, i);
        AfterResultsAt(w0, results, plans);
        graph.MarkFailed(node.id);
        return edges', m', processed', sorted, Some(Failed);
      }
      assert CompletedBefore(results, i + 1);
      ProcessAllNext(w0, ns, plans, i);
      MarksNode(Work(graph.View(), edges', m'.spawned, m'.budget), node, plans(node.id));
      edges', m' := ProcessCompletedNode(graph, node, edges', m', plans(node.id));
      sorted := graph.OrderedNodes();
    }
    GoodPrefixIs(results, |results|);
    AfterResultsAt(w0, results, plans);
  }

  function NodesOf(rs: seq<(Node, Status)>): (ns: seq<Node>)
    ensures |ns| == |rs| && forall i | 0 <= i < |rs| :: ns[i] == rs[i].0
  {
    seq(|rs|, i requires 0 <= i < |rs| => rs[i].0)
  }

  predicate CompletedBefore(results: seq<(Node, Status)>, k: nat)
    requires k <= |results|
  {
    forall i | 0 <= i < k :: results[i].1 == Completed
  }

  lemma GoodPrefixIs(results: seq<(Node, Status)>, k: nat)
    requires k <= |results| && CompletedBefore(results, k) && (k < |results| ==> results[k].1 != Completed)
    ensures GoodPrefix(Statuses(results)) == k
  {
    var j := GoodPrefix(Statuses(results));
    assert forall i | 0 <= i < |results| :: Statuses(results)[i] == results[i].1;
  }

  // ---------------------------------------------------------------- the ghost run

  /** The run's last state is what the loop's variables hold. */
  ghost predicate Current(run: seq<State>, g: Graph, edges: seq<Edge>, m: Memory, sorted: seq<Node>) {
    && IsRun(run) && Last(run).phase.Running?
    && Last(run).w == Work(g, edges, m.spawned, m.budget)
    && Last(run).sorted == Ids(sorted)
    && forall n | n in sorted :: n.id in g.nodes && g.nodes[n.id] == n
  }

  lemma CurrentInv(run: seq<State>, g: Graph, edges: seq<Edge>, m: Memory, sorted: seq<Node>)
    requires Current(run, g, edges, m, sorted)
    ensures Inv(Last(run))
    ensures NoDup(Ids(ReadyList(g))) && forall n | n in ReadyList(g) :: n.id !in g.completed
  {
    assert |run| > 0;
    hide IsRun, Inv, Settled, ReadyList, WorkOk;
    RunInv(run, |run| - 1);
    SettledRunning(Last(run));
    ReadyIsRound(Last(run), |Last(run).batches|);
  }

  lemma EndsRun(run: seq<State>, s': State, status: Status, m: Memory)
    requires IsRun(run) && Next(Last(run), s') && s'.phase == Finished(status) && m == Memory(s'.w.spawned, s'.w.budget)
    ensures RunEnds(run + [s'], Ended(status), m) && run <= run + [s']
  {
    hide IsRun, Next;
    RunSnoc(run, s');
  }

  lemma SavedNodes(g: Graph, sorted: seq<Node>)
    requires forall n | n in sorted :: n.id in g.nodes && g.nodes[n.id] == n
    ensures SetOf(Ids(sorted)) <= g.nodes.Keys && sorted == NodesAt(g.nodes, Ids(sorted))
  {
    forall i | 0 <= i < |sorted| ensures sorted[i].id in g.nodes && g.nodes[sorted[i].id] == sorted[i] {
      assert sorted[i] in sorted;
    }
  }

  lemma PausesRun(run: seq<State>, g: Graph, edges: seq<Edge>, m: Memory, sorted: seq<Node>, gate: Node)
    requires Current(run, g, edges, m, sorted) && FirstGate(ReadyList(g)) == Some(gate)
    ensures var s' := Last(run).(phase := Waiting(gate.id));
      && RunEnds(run + [s'], WaitingApproval(Checkpoint(|g.completed| + 1, sorted, edges)), m) && run <= run + [s']
  {
    assert |run| > 0;
    hide IsRun, ReadyList, FirstGate;
    var s' := Last(run).(phase := Waiting(gate.id));
    assert Pause(Last(run), s');
    hide Next;
    RunSnoc(run, s');
    SavedNodes(g, sorted);
  }

  lemma BatchExtends(run: seq<State>, g: Graph, edges: seq<Edge>, m: Memory, sorted: seq<Node>,
                     results: seq<(Node, Status)>, executed: seq<Id>, plans: Id -> Plan, s': State)
    requires Current(run, g, edges, m, sorted)
    requires BatchStep(Last(run), s', Statuses(results), executed, plans)
    ensures IsRun(run + [s']) && Last(run + [s']) == s' && run <= run + [s']
    ensures s'.phase.Running? ==> 0 <= Rank(s') < Rank(Last(run))
  {
    assert |run| > 0;
    CurrentInv(run, g, edges, m, sorted);
    assert Next(Last(run), s');
    hide *;
    RunSnoc(run, s');
    RankFalls(Last(run), s');
  }

  /** The state after a batch, as the run records it. */
  ghost function AfterBatch(s: State, results: seq<(Node, Status)>, executed: seq<Id>, plans: Id -> Plan,
                            sorted: seq<Id>): State {
    var k := GoodPrefix(Statuses(results));
    if k == |results| then
      s.(w := AfterResults(s.w, results, plans), sorted := sorted, batches := s.batches + [executed])
    else
      s.(w := AfterResults(s.w, results, plans), tail := executed, phase := Finished(results[k].1))
  }

  lemma AfterBatchIsStep(s: State, ready: seq<Node>, results: seq<(Node, Status)>, executed: seq<Id>,
                         plans: Id -> Plan, sorted: seq<Id>)
    requires s.phase.Running? && ready == ReadyList(s.w.g) && ready != [] && FirstGate(ready).None? && NoDup(Ids(ready))
    requires BatchRan(Ids(ready), Statuses(results), executed)
    requires |results| <= |ready| && forall i | 0 <= i < |results| :: results[i].0 == ready[i]
    requires GoodPrefix(Statuses(results)) == |results| ==> IsOrdering(AfterResults(s.w, results, plans).g, sorted)
    ensures BatchStep(s, AfterBatch(s, results, executed, plans, sorted), Statuses(results), executed, plans)
  {
    hide ReadyList, FirstGate, IsOrdering, ProcessAll, RanInTurn, RanTogether, BatchRan;
    RanAll(Ids(ready), Statuses(results), executed);
    var k := GoodPrefix(Statuses(results));
    assert NodesOf(results)[..k] == ready[..k];
    assert ready[..|ready|] == ready;
  }

  // ---------------------------------------------------------------- the loop

  /** One pass of `while True`: an outcome when the loop is left, otherwise the variables for the
      next pass, with the run extended by one state of lower rank. */
  method Iterate(graph: AdaptiveExecutionGraph, edges: seq<Edge>, m: Memory, sorted: seq<Node>, processed: set<Id>,
                 env: Env, pass: nat, ghost run: seq<State>)
    returns (edges': seq<Edge>, m': Memory, sorted': seq<Node>, processed': set<Id>, left: Option<Outcome>,
        ghost run': seq<State>)
    requires graph.Consistent() && processed == graph.completed
    requires Current(run, graph.View(), edges, m, sorted)
    requires forall id :: !env.steps.Raises(id)
    modifies graph`order, graph`nodes, graph`edges, graph`deps, graph`completed, graph`failed
    ensures graph.Consistent() && run <= run' && |run'| == |run| + 1
    ensures PassStep(Last(run), Last(run'), env, pass)
    ensures left.Some? ==> RunEnds(run', left.value, m')
    ensures left.None? ==> processed' == graph.completed && Current(run', graph.View(), edges', m', sorted')
    ensures left.None? ==> 0 <= Rank(Last(run')) < Rank(Last(run))
  {
    hide Current, IsRun, Inv, Rank, RunEnds, Next, ReadyList, FirstGate, Ids, NoDup, Statuses, IsOrdering, Valid, Deps;
    hide AfterBatch, AfterResults, BatchRan, BatchStep, Potential, GoodPrefix, StepsRan, PassStep;
    edges', m', sorted', processed', run' := edges, m, sorted, processed, run;
    ghost var s := LastOf(run, graph.View(), edges, m, sorted);
    if !env.safe(pass) {
      StopStep(run, s, m);
      StopPass(s, env, pass);
      run' := run + [s.(phase := Finished(Failed))];
      return edges', m', sorted', processed', Some(Ended(Failed)), run';
    }
    CurrentInv(run, graph.View(), edges, m, sorted);
    var ready := graph.GetReadyNodes();
    ready := NotProcessed(ready, processed);
    if |ready| == 0 {
      NothingStep(run, s, m);
      EmptyPass(s, env, pass);
      run' := run + [s.(phase := Finished(Completed))];
      return edges', m', sorted', processed', Some(Ended(Completed)), run';
    }
    var gate := FindGate(ready);
    if gate.Some? {
      var idx := |processed| + 1;
      PausesRun(run, graph.View(), edges, m, sorted, gate.value);
      GatePass(s, env, pass, gate.value);
      run' := run + [s.(phase := Waiting(gate.value.id))];
      return edges', m', sorted', processed', Some(WaitingApproval(Checkpoint(idx, sorted, edges))), run';
    }
    var batch, executed := ExecuteReadyBatch(graph, ready, env.parallelEnabled, env.steps);
    var results := batch.results;
    BatchNonempty(ready, results, executed);
    var broken;
    edges', m', processed', sorted', broken := ProcessResults(graph, results, edges, m, processed, env.plans);
    AfterBatchIsStep(s, ready, results, executed, env.plans, Ids(sorted'));
    ghost var s' := AfterBatch(s, results, executed, env.plans, Ids(sorted'));
    AfterBatchShape(s, results, executed, env.plans, Ids(sorted'));
    BatchExtends(run, old(graph.View()), edges, m, sorted, results, executed, env.plans, s');
    run' := run + [s'];
    AsPass(s, s', env, pass, results, executed);
    if broken.Some? {
      left := Some(Ended(broken.value));
      EndedAs(run', s', broken.value, m');
    } else {
      left := None;
      StillCurrent(run', s', graph.View(), edges', m', sorted');
    }
  }

  ghost function LastOf(run: seq<State>, g: Graph, edges: seq<Edge>, m: Memory, sorted: seq<Node>): (s: State)
    requires Current(run, g, edges, m, sorted)
    ensures |run| > 0 && s == Last(run) && s.phase == Running && IsRun(run)
    ensures s.w == Work(g, edges, m.spawned, m.budget)
  {
    Last(run)
  }

  lemma StopStep(run: seq<State>, s: State, m: Memory)
    requires |run| > 0 && IsRun(run) && s == Last(run) && s.phase == Running && m == Memory(s.w.spawned, s.w.budget)
    ensures var s' := s.(phase := Finished(Failed)); RunEnds(run + [s'], Ended(Failed), m) && run <= run + [s']
  {
    hide IsRun;
    var s' := s.(phase := Finished(Failed));
    assert SafetyStop(s, s');
    EndsRun(run, s', Failed, m);
  }

  lemma NothingStep(run: seq<State>, s: State, m: Memory)
    requires |run| > 0 && IsRun(run) && s == Last(run) && s.phase == Running && ReadyList(s.w.g) == []
    requires m == Memory(s.w.spawned, s.w.budget)
    ensures var s' := s.(phase := Finished(Completed)); RunEnds(run + [s'], Ended(Completed), m) && run <= run + [s']
  {
    hide IsRun, ReadyList;
    var s' := s.(phase := Finished(Completed));
    assert NothingReady(s, s');
    EndsRun(run, s', Completed, m);
  }

  lemma BatchNonempty(ready: seq<Node>, results: seq<(Node, Status)>, executed: seq<Id>)
    requires ready != [] && BatchRan(Ids(ready), Statuses(results), executed)
    ensures results != []
  {
  }

  lemma AsPass(s: State, s': State, env: Env, pass: nat, results: seq<(Node, Status)>, executed: seq<Id>)
    requires s.phase.Running? && env.safe(pass) && ReadyList(s.w.g) != [] && FirstGate(ReadyList(s.w.g)).None?
    requires StepsRan(Deps(s.w.g), Ids(ReadyList(s.w.g)), env.parallelEnabled, env.steps, Statuses(results), executed)
    requires BatchStep(s, s', Statuses(results), executed, env.plans)
    ensures PassStep(s, s', env, pass)
  {
    hide ReadyList, StepsRan, BatchStep;
    RanPass(s, s', env, pass, Statuses(results), executed);
  }

  lemma AfterBatchShape(s: State, results: seq<(Node, Status)>, executed: seq<Id>, plans: Id -> Plan, sorted: seq<Id>)
    requires s.phase == Running
    ensures var k, s' := GoodPrefix(Statuses(results)), AfterBatch(s, results, executed, plans, sorted);
      && s'.w == AfterResults(s.w, results, plans)
      && (k == |results| ==> s'.phase == Running && s'.sorted == sorted)
      && (k != |results| ==> k < |results| && s'.phase == Finished(results[k].1))
  {
    assert |Statuses(results)| == |results|;
  }

  lemma EndedAs(run: seq<State>, s': State, status: Status, m: Memory)
    requires |run| > 0 && IsRun(run) && Last(run) == s' && s'.phase == Finished(status)
    requires m == Memory(s'.w.spawned, s'.w.budget)
    ensures RunEnds(run, Ended(status), m)
  {
    hide IsRun;
  }

  lemma StillCurrent(run: seq<State>, s': State, g: Graph, edges: seq<Edge>, m: Memory, sorted: seq<Node>)
    requires |run| > 0 && IsRun(run) && Last(run) == s' && s'.phase == Running
    requires s'.w == Work(g, edges, m.spawned, m.budget) && s'.sorted == Ids(sorted)
    requires forall n | n in sorted :: n.id in g.nodes && g.nodes[n.id] == n
    ensures Current(run, g, edges, m, sorted)
  {
    hide IsRun;
  }

  // ---------------------------------------------------------------- entering the loop

  /** A fresh start: every node has an id and nothing uses the generated form of names. */
  ghost predicate FreshStart(nodes: seq<Node>, edges: seq<Edge>, m: Memory) {
    (forall n | n in nodes :: n.id != "") && NoReservedNames(Build(nodes, edges))
    && ChildNamesFree(Build(nodes, edges), nodes) && m.spawned == 0
  }

  /** A resume: the arguments are what the pause that ends `origin` saved, at a gate that was alone
      among the ready nodes. */
  ghost predicate ResumesFrom(origin: seq<State>, nodes: seq<Node>, edges: seq<Edge>, startAfterIdx: nat, m: Memory) {
    && |origin| > 0 && IsRun(origin)
    && PausedAs(Last(origin), Checkpoint(startAfterIdx, nodes, edges), m)
    && ReadyIds(Last(origin).w.g) == {Last(origin).phase.gate}
  }

  lemma FreshRun(nodes: seq<Node>, edges: seq<Edge>, subgoals: nat, m: Memory, g: Graph, sorted: seq<Node>)
    requires FreshStart(nodes, edges, m) && g == Decompose(Build(nodes, edges), nodes, subgoals)
    requires IsOrdering(g, Ids(sorted)) && forall n | n in sorted :: n.id in g.nodes && g.nodes[n.id] == n
    ensures Current([StartState(g, edges, m, Ids(sorted))], g, edges, m, sorted)
    ensures g.completed == {} && m.spawned == 0
  {
    hide Deps, Valid, NamesOk, IsOrdering, Build, NoReservedNames, Decompose, Agreement, Sound;
    DecomposeStarts(nodes, edges, subgoals);
    assert Init(StartState(g, edges, m, Ids(sorted)));
  }

  /** The state after resuming from the last state of `origin`. */
  ghost function ResumedState(s: State, g: Graph, ids: seq<Id>): State
    requires s.phase.Waiting?
  {
    s.(w := s.w.(g := g), sorted := ids, batches := s.batches + [[s.phase.gate]],
       granted := s.granted + {s.phase.gate}, phase := Running)
  }

  lemma ResumedRun(origin: seq<State>, nodes: seq<Node>, edges: seq<Edge>, startAfterIdx: nat, m: Memory,
                   g0: Graph, g: Graph, sorted: seq<Node>)
    requires ResumesFrom(origin, nodes, edges, startAfterIdx, m) && g0 == Build(nodes, edges)
    requires IsOrdering(g0, Ids(sorted)) && forall n | n in sorted :: n.id in g0.nodes && g0.nodes[n.id] == n
    requires startAfterIdx <= |sorted| ==> g == g0.(completed := SetOf(Ids(sorted)[..startAfterIdx]))
    ensures startAfterIdx <= |sorted|
    ensures var s' := ResumedState(Last(origin), g, Ids(sorted));
      Current(origin + [s'], g, edges, m, sorted) && origin <= origin + [s']
  {
    var s := Last(origin);
    hide IsRun, Deps, IsOrdering, ReadyIds, Build, MarksExactly;
    PauseResumeExact(origin, |origin| - 1);
    assert g0 == Rebuilt(s);
    assert MarksExactly(Ids(sorted), startAfterIdx, s.w.g.completed, s.phase.gate);
    MarksLength(Ids(sorted), startAfterIdx, s.w.g.completed, s.phase.gate);
    var s' := ResumedState(s, g, Ids(sorted));
    assert Resume(s, s', Ids(sorted));
    hide Next;
    RunSnoc(origin, s');
  }

  lemma MarksLength(ids: seq<Id>, count: nat, done: set<Id>, gate: Id)
    requires MarksExactly(ids, count, done, gate)
    ensures count <= |ids|
  {
  }

  /** The loop that marks the first `startAfterIdx` nodes of a fresh order as done. */
  method MarkPrefix(graph: AdaptiveExecutionGraph, sorted: seq<Node>, startAfterIdx: nat) returns (processed: set<Id>)
    requires graph.Consistent() && graph.completed == {}
    requires forall n | n in sorted :: n.id != ""
    modifies graph`completed
    ensures graph.Consistent() && processed == graph.completed
    ensures startAfterIdx <= |sorted| ==>
              graph.View() == old(graph.View()).(completed := SetOf(Ids(sorted)[..startAfterIdx]))
  {
    processed := {};
    for i := 0 to |sorted|
      invariant graph.Consistent() && processed == graph.completed
      invariant graph.completed == SetOf(Ids(sorted)[..if i < startAfterIdx then i else startAfterIdx])
    {
      hide Valid, Deps;
      if i < startAfterIdx {
        var id := sorted[i].id;
        assert sorted[i] in sorted;
        assert Ids(sorted)[..i + 1] == Ids(sorted)[..i] + [id];
        if id != "" {
          graph.MarkCompleted(id);
          processed := processed + {id};
        }
      }
    }
  }

  lemma OrderedIdsNonempty(g: Graph, sorted: seq<Node>)
    requires Valid(g) && forall n | n in sorted :: n.id in g.nodes && g.nodes[n.id] == n
    ensures forall n | n in sorted :: n.id != ""
  {
  }

  /** A checkpoint a resume can use: the saved index names one of the saved nodes, each saved once. */
  predicate Resumable(c: Checkpoint) {
    1 <= c.currentIdx <= |c.nodes| && NoDup(Ids(c.nodes))
  }

  lemma SavedIds(nodes: map<Id, Node>, ids: seq<Id>)
    requires SetOf(ids) <= nodes.Keys && forall n | n in nodes :: nodes[n].id == n
    ensures Ids(NodesAt(nodes, ids)) == ids
  {
    forall i | 0 <= i < |ids| ensures Ids(NodesAt(nodes, ids))[i] == ids[i] { assert ids[i] in SetOf(ids); }
  }

  lemma NodesNamed(w: Work)
    requires WorkOk(w)
    ensures w.spawned == 0 || w.spawned == 2
    ensures forall n | n in w.g.nodes :: w.g.nodes[n].id == n
  {
    hide Deps, Agreement;
  }

  /** What a run that pauses has saved. */
  lemma CheckpointFacts(run: seq<State>, c: Checkpoint, m: Memory)
    requires RunEnds(run, WaitingApproval(c), m)
    ensures |run| > 0 && IsRun(run) && Resumable(c) && (m.spawned == 0 || m.spawned == 2)
    ensures |c.nodes| == |run[|run| - 1].w.g.nodes|
  {
    hide IsRun, Inv, WorkOk, Deps, Settled, NamesOk;
    assert |run| > 0 by { RunNonempty(run); }
    var s := Last(run);
    RunInv(run, |run| - 1);
    SettledRunning(s);
    NodesNamed(s.w);
    SavedIds(s.w.g.nodes, s.sorted);
    GateReady(s);
    GateOutside(s, |s.batches|);
    OrderLength(s, |s.batches|);
  }

  lemma RunNonempty(run: seq<State>)
    requires IsRun(run)
    ensures |run| > 0
  {
  }

  lemma OrderLength(s: State, k: nat)
    requires Settled(s, Deps(s.w.g), k)
    ensures NoDup(s.sorted) && |s.sorted| == |s.w.g.nodes.Keys| == |s.w.g.nodes|
  {
    hide Deps, Done, Layer;
    NoDupCardinality(s.sorted);
  }

  /** The whole scheduler call, from the start of a workflow (`startAfterIdx` 0) or from a
      checkpoint.  It always terminates, and its states extend `origin` to a longer run. */
  method ExecuteNodesAdaptive(nodes: seq<Node>, edges0: seq<Edge>, startAfterIdx: nat, subgoals: nat, m0: Memory,
                              env: Env, ghost origin: seq<State>)
    returns (o: Outcome, m: Memory, ghost run: seq<State>)
    requires startAfterIdx == 0 ==> origin == [] && FreshStart(nodes, edges0, m0)
    requires startAfterIdx > 0 ==> ResumesFrom(origin, nodes, edges0, startAfterIdx, m0)
    requires forall id :: !env.steps.Raises(id)
    ensures RunEnds(run, o, m) && origin <= run
    ensures |run| >= |origin| + 2 && Passes(run, |origin|, env)
    ensures startAfterIdx == 0 ==>
              run[0].w == Work(Decompose(Build(nodes, edges0), nodes, subgoals), edges0, 0, m0.budget)
    ensures o.WaitingApproval? ==> Resumable(o.checkpoint) && (m.spawned == 0 || m.spawned == 2)
    ensures o.WaitingApproval? && startAfterIdx == 0 ==> |o.checkpoint.nodes| <= |nodes| + 3 + 2 + m0.budget
  {
    hide Resumable, Passes, PassStep;
    hide Current, IsRun, RunEnds, IsOrdering, Valid, Deps, FreshStart, ResumesFrom, Decompose, Build, Ids, Rank;
    var graph := new AdaptiveExecutionGraph(nodes, edges0);
    BuildCompleted(nodes, edges0);
    if startAfterIdx == 0 {
      DecomposeObjective(graph, nodes, subgoals);
    }
    var edges, processed: set<Id> := edges0, {};
    m := m0;
    var sorted := graph.OrderedNodes();
    if startAfterIdx > 0 {
      ghost var g0 := graph.View();
      OrderedIdsNonempty(g0, sorted);
      processed := MarkPrefix(graph, sorted, startAfterIdx);
      ResumedRun(origin, nodes, edges0, startAfterIdx, m0, g0, graph.View(), sorted);
      run := origin + [ResumedState(ResumeOrigin(origin, nodes, edges0, startAfterIdx, m0), graph.View(), Ids(sorted))];
    } else {
      FreshRun(nodes, edges0, subgoals, m0, graph.View(), sorted);
      run := [StartState(graph.View(), edges0, m0, Ids(sorted))];
    }
    ghost var start := run;
    var pass, left := 0, None;
    PassesNone(run, |origin|, env, graph.View(), edges, m, sorted);
    while true
      invariant graph.Consistent() && processed == graph.completed && fresh(graph)
      invariant Current(run, graph.View(), edges, m, sorted) && start <= run && |run| == |origin| + pass + 1
      invariant Passes(run, |origin|, env)
      decreases Rank(Last(run))
    {
      ghost var before := run;
      edges, m, sorted, processed, left, run := Iterate(graph, edges, m, sorted, processed, env, pass, run);
      PassesSnoc(before, |origin|, env, run);
      if left.Some? {
        if left.value.WaitingApproval? {
          CheckpointFacts(run, left.value.checkpoint, m);
          if startAfterIdx == 0 { TotalSize(nodes, edges0, subgoals, m0, run, |run| - 1); }
        }
        return left.value, m, run;
      }
      pass := pass + 1;
    }
  }

  lemma PassesNone(run: seq<State>, first: nat, env: Env, g: Graph, edges: seq<Edge>, m: Memory, sorted: seq<Node>)
    requires |run| == first + 1 && Current(run, g, edges, m, sorted)
    ensures Passes(run, first, env)
  {
    hide PassStep, IsRun;
  }

  lemma PassesSnoc(run: seq<State>, first: nat, env: Env, run': seq<State>)
    requires Passes(run, first, env) && run <= run' && |run'| == |run| + 1
    requires PassStep(run[|run| - 1], run'[|run|], env, |run| - 1 - first)
    ensures Passes(run', first, env)
  {
    hide PassStep;
    assert forall i | 0 <= i < |run| :: run'[i] == run[i];
  }

  lemma BuildCompleted(nodes: seq<Node>, edges: seq<Edge>)
    ensures Build(nodes, edges).completed == {} && Build(nodes, edges).failed == {}
  {
    PutAllValid(Graph([], map[], edges, {}, {}), nodes);
  }

  ghost function ResumeOrigin(origin: seq<State>, nodes: seq<Node>, edges: seq<Edge>, startAfterIdx: nat,
                              m: Memory): (s: State)
    requires ResumesFrom(origin, nodes, edges, startAfterIdx, m)
    ensures |origin| > 0 && s == Last(origin) && s.phase.Waiting?
  {
    Last(origin)
  }

  /** End to end: a workflow of n nodes never grows beyond n + 3 (initial decomposition) + 2 (runtime
      children) + the retry budget, in any run, over any number of pauses. */
  lemma TotalSize(nodes: seq<Node>, edges: seq<Edge>, subgoals: nat, m: Memory, ss: seq<State>, i: nat)
    requires FreshStart(nodes, edges, m) && IsRun(ss) && i < |ss|
    requires ss[0].w == Work(Decompose(Build(nodes, edges), nodes, subgoals), edges, 0, m.budget)
    ensures |ss[i].w.g.nodes| <= |nodes| + 3 + 2 + m.budget
  {
    DecomposeStarts(nodes, edges, subgoals);
    hide *;
    SizeBound(ss, i);
  }
}
