/** Whole runs of the adaptive scheduler as a state machine: the loop's iterations, pauses at
    approval gates, and resumes from a checkpoint.  Step outcomes, planner decisions, set-iteration
    orders and safety stops are free choices, so every theorem holds for all of them. */
module Scheduler {
  import opened Layering
  import opened Sequences
  import opened GraphModel
  import opened ExecutionLayers
  import opened ResumePrefix
  import opened PostStep
  import opened Wrappers

  datatype Status = Completed | Failed | Cancelled

  datatype Phase = Running | Waiting(gate: Id) | Finished(status: Status)

  /** `sorted` is the engine's `sorted_nodes`.  `batches` records what each finished iteration
      executed, or the gate each resume granted; `tail` what the last, unsuccessful batch executed. */
  datatype State = State(w: Work, sorted: seq<Id>, batches: seq<seq<Id>>, tail: seq<Id>, granted: set<Id>, phase: Phase)

  // ---------------------------------------------------------------- one batch

  /** The sequential branch: in turn, up to the first step that does not complete.  A step found
      cancelled beforehand is not executed. */
  ghost predicate RanInTurn(ready: seq<Id>, results: seq<Status>, executed: seq<Id>) {
    && 1 <= |results| <= |ready|
    && (forall i | 0 <= i < |results| - 1 :: results[i] == Completed)
    && (results[|results| - 1] == Completed ==> |results| == |ready|)
    && (executed == ready[..|results|]
        || (executed == ready[..|results| - 1] && results[|results| - 1] == Cancelled))
  }

  /** The parallel branch: every node gets a result, in the order of the batch; the steps may
      execute in any order, and only cancelled ones may not execute at all. */
  ghost predicate RanTogether(ready: seq<Id>, results: seq<Status>, executed: seq<Id>) {
    && |results| == |ready| > 1
    && NoDup(executed) && SetOf(executed) <= SetOf(ready)
    && (forall i | 0 <= i < |ready| && results[i] != Cancelled :: ready[i] in executed)
  }

  ghost predicate BatchRan(ready: seq<Id>, results: seq<Status>, executed: seq<Id>) {
    RanInTurn(ready, results, executed) || RanTogether(ready, results, executed)
  }

  /** How many leading results are completed. */
  function GoodPrefix(results: seq<Status>): (k: nat)
    ensures k <= |results|
    ensures forall i | 0 <= i < k :: results[i] == Completed
    ensures k < |results| ==> results[k] != Completed
  {
    if results == [] || results[0] != Completed then 0 else 1 + GoodPrefix(results[1..])
  }

  lemma RanAll(ready: seq<Id>, results: seq<Status>, executed: seq<Id>)
    requires NoDup(ready) && BatchRan(ready, results, executed)
    ensures NoDup(executed) && SetOf(executed) <= SetOf(ready)
    ensures GoodPrefix(results) <= |ready|
    ensures GoodPrefix(results) == |results| ==> |results| == |ready| && SetOf(executed) == SetOf(ready)
  {
    var k := GoodPrefix(results);
    if k == |results| {
      assert results[|results| - 1] == Completed;
      assert ready[..|ready|] == ready;
      if RanTogether(ready, results, executed) {
        assert forall i | 0 <= i < |ready| :: ready[i] in executed;
      }
    }
  }

  // ---------------------------------------------------------------- steps

  function FirstGate(ns: seq<Node>): (r: Option<Node>)
    ensures r.None? <==> forall n | n in ns :: !n.Approval()
    ensures r.Some? ==> r.value in ns && r.value.Approval()
  {
    if ns == [] then None
    else if ns[0].Approval() then Some(ns[0])
    else FirstGate(ns[1..])
  }

  /** `mid_execution_check` refuses to go on. */
  ghost predicate SafetyStop(s: State, s': State) {
    s.phase.Running? && s' == s.(phase := Finished(Failed))
  }

  ghost predicate NothingReady(s: State, s': State) {
    s.phase.Running? && ReadyList(s.w.g) == [] && s' == s.(phase := Finished(Completed))
  }

  ghost predicate Pause(s: State, s': State) {
    && s.phase.Running?
    && FirstGate(ReadyList(s.w.g)).Some?
    && s' == s.(phase := Waiting(FirstGate(ReadyList(s.w.g)).value.id))
  }

  /** A batch of ready agents all of whose steps complete; every result is then processed. */
  ghost predicate BatchCompletes(s: State, s': State, executed: seq<Id>, plans: Id -> Plan) {
    var ready := ReadyList(s.w.g);
    && s.phase.Running? && ready != [] && FirstGate(ready).None?
    && NoDup(executed) && SetOf(executed) == SetOf(Ids(ready))
    && s'.w == ProcessAll(s.w, ready, plans)
    && IsOrdering(s'.w.g, s'.sorted)
    && s' == s.(w := s'.w, sorted := s'.sorted, batches := s.batches + [executed])
  }

  /** A batch whose first non-completed result is at k: the results before it are processed, the
      rest are dropped, and the run ends. */
  ghost predicate BatchBreaks(s: State, s': State, executed: seq<Id>, plans: Id -> Plan, k: nat, status: Status) {
    var ready := ReadyList(s.w.g);
    && s.phase.Running? && FirstGate(ready).None? && k < |ready| && status != Completed
    && NoDup(executed) && SetOf(executed) <= SetOf(Ids(ready))
    && var w1 := ProcessAll(s.w, ready[..k], plans);
       s' == s.(w := if status == Failed then w1.(g := w1.g.(failed := w1.g.failed + {ready[k].id})) else w1,
                tail := executed, phase := Finished(status))
  }

  /** What either branch of the batch runner returns leads to one of the two batch steps. */
  ghost predicate BatchStep(s: State, s': State, results: seq<Status>, executed: seq<Id>, plans: Id -> Plan) {
    && BatchRan(Ids(ReadyList(s.w.g)), results, executed)
    && var k := GoodPrefix(results);
       if k == |results| then BatchCompletes(s, s', executed, plans)
       else BatchBreaks(s, s', executed, plans, k, results[k])
  }

  function NodesAt(nodes: map<Id, Node>, ids: seq<Id>): seq<Node>
    requires SetOf(ids) <= nodes.Keys
  {
    seq(|ids|, i requires 0 <= i < |ids| => assert ids[i] in SetOf(ids); nodes[ids[i]])
  }

  /** The graph `resume_workflow` builds from the checkpoint saved at the pause. */
  function Rebuilt(s: State): Graph
    requires SetOf(s.sorted) <= s.w.g.nodes.Keys
  {
    Build(NodesAt(s.w.g.nodes, s.sorted), s.w.edges)
  }

  /** Resume after approval: the first `current_idx` entries of a fresh order, one more than were processed,
      count as done. */
  ghost predicate ResumeAnywhere(s: State, s': State, ids: seq<Id>) {
    && s.phase.Waiting?
    && SetOf(s.sorted) <= s.w.g.nodes.Keys
    && var g0 := Rebuilt(s);
    && IsOrdering(g0, ids)
    && |s.w.g.completed| + 1 <= |ids|
    && s' == s.(w := s.w.(g := g0.(completed := SetOf(ids[..|s.w.g.completed| + 1]))),
                sorted := ids,
                batches := s.batches + [[s.phase.gate]],
                granted := s.granted + {s.phase.gate},
                phase := Running)
  }

  /** ... from a gate that was alone among the ready nodes, which the code does not check. */
  ghost predicate Resume(s: State, s': State, ids: seq<Id>) {
    s.phase.Waiting? && ReadyIds(s.w.g) == {s.phase.gate} && ResumeAnywhere(s, s', ids)
  }

  ghost predicate Next(s: State, s': State) {
    || SafetyStop(s, s')
    || NothingReady(s, s')
    || Pause(s, s')
    || (exists results, executed, plans :: BatchStep(s, s', results, executed, plans))
    || (exists ids :: Resume(s, s', ids))
  }

  /** Nothing done yet, and no id that looks generated. */
  ghost predicate Init(s: State) {
    && WorkOk(s.w) && NamesOk(s.w.g)
    && s.w.g.completed == {} && s.w.g.failed == {} && s.w.spawned == 0
    && IsOrdering(s.w.g, s.sorted)
    && s.batches == [] && s.tail == [] && s.granted == {} && s.phase == Running
  }

  ghost predicate IsRun(ss: seq<State>) {
    |ss| > 0 && Init(ss[0]) && forall i, j | 0 <= i < |ss| - 1 && j == i + 1 :: Next(ss[i], ss[j])
  }

  // ---------------------------------------------------------------- the invariant

  /** Batch i is exactly round i of the present graph, laid out from scratch. */
  ghost predicate BatchesAreRounds(d: DepMap, batches: seq<seq<Id>>) {
    forall i | 0 <= i < |batches| :: NoDup(batches[i]) && SetOf(batches[i]) == Layer(d, i) && batches[i] != []
  }

  /** Of the nodes done, exactly the gates have been granted. */
  ghost predicate GatesGranted(nodes: map<Id, Node>, done: set<Id>, granted: set<Id>) {
    && granted <= done <= nodes.Keys
    && forall n | n in done :: nodes[n].Approval() <==> n in granted
  }

  ghost predicate TailOk(d: DepMap, nodes: map<Id, Node>, k: nat, tail: seq<Id>) {
    && NoDup(tail) && SetOf(tail) <= Layer(d, k)
    && forall n | n in tail :: n in nodes && !nodes[n].Approval()
  }

  ghost predicate Inv(s: State) {
    var d, k := Deps(s.w.g), |s.batches|;
    && WorkOk(s.w) && NamesOk(s.w.g)
    && BatchesAreRounds(d, s.batches)
    && GatesGranted(s.w.g.nodes, Done(d, k), s.granted)
    && TailOk(d, s.w.g.nodes, k, s.tail)
    && PhaseOk(s, d, k)
  }

  ghost predicate PhaseOk(s: State, d: DepMap, k: nat) {
    match s.phase
    case Running => Settled(s, d, k)
    case Waiting(gate) => Settled(s, d, k) && gate in Layer(d, k) && s.w.g.nodes[gate].Approval()
    case Finished(Completed) => Settled(s, d, k) && Layer(d, k) == {}
    case Finished(_) => true
  }

  /** Between iterations: exactly k rounds are done and the saved order lists every node. */
  ghost predicate Settled(s: State, d: DepMap, k: nat) {
    && s.tail == [] && s.w.g.failed == {}
    && s.w.g.completed == Done(d, k)
    && Layer(d, k) <= s.w.g.nodes.Keys
    && NoDup(s.sorted) && SetOf(s.sorted) == s.w.g.nodes.Keys
  }
}
