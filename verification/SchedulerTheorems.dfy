/** What every run of the scheduler satisfies, over any number of batches, pauses and resumes and
    however the graph grows on the way. */
module SchedulerTheorems {
  import opened Layering
  import opened Sequences
  import opened GraphModel
  import opened ExecutionLayers
  import opened ResumePrefix
  import opened PostStep
  import opened Scheduler
  import opened SchedulerInvariant
  import AdaptiveGraph

  // ---------------------------------------------------------------- batches are layers

  /** The k-th batch executed is the k-th layer of the graph as it is at any later point of the
      run, laid out from scratch in any set order. */
  lemma {:induction false} BatchesAreLayers(ss: seq<State>, i: nat, layers: seq<seq<Id>>, b: nat)
    requires IsRun(ss) && i < |ss| && b < |ss[i].batches|
    requires var g := ss[i].w.g; IsLayering(Deps(g), g.nodes, g.nodes.Keys, {}, layers)
    ensures b < |layers| && SetOf(layers[b]) == SetOf(ss[i].batches[b])
  {
    RunInv(ss, i);
    var g := ss[i].w.g;
    NonemptyRound(Deps(g), ss[i].batches, b);
    LayersPrefix(Deps(g), g.nodes, layers, b);
  }

  lemma NonemptyRound(d: DepMap, batches: seq<seq<Id>>, b: nat)
    requires BatchesAreRounds(d, batches) && b < |batches|
    ensures SetOf(batches[b]) == Layer(d, b) != {}
  {
    assert batches[b][0] in SetOf(batches[b]);
  }

  /** A node runs in batch b exactly when its longest dependency chain has b + 1 nodes. */
  lemma {:induction false} BatchIsDepth(ss: seq<State>, i: nat, b: nat, n: Id)
    requires IsRun(ss) && i < |ss| && b < |ss[i].batches|
    requires Sound(Deps(ss[i].w.g)) && n in ss[i].w.g.nodes
    ensures n in ss[i].batches[b] <==> LongestChain(Deps(ss[i].w.g), n, b + 1)
  {
    RunInv(ss, i);
    var d := Deps(ss[i].w.g);
    NonemptyRound(d, ss[i].batches, b);
    hide Inv, IsRun;
    SoundIsComplete(d);
    LayerIsDepth(d, b, n);
    assert n in ss[i].batches[b] <==> n in SetOf(ss[i].batches[b]);
  }

  // ---------------------------------------------------------------- order of execution

  /** Everything executed or granted so far, in order. */
  function History(s: State): seq<Id> {
    Flatten(s.batches) + s.tail
  }

  lemma {:induction false} RoundsFlatten(d: DepMap, batches: seq<seq<Id>>)
    requires BatchesAreRounds(d, batches)
    ensures NoDup(Flatten(batches)) && SetOf(Flatten(batches)) == Done(d, |batches|)
  {
    if batches != [] {
      var init, last := batches[..|batches| - 1], batches[|batches| - 1];
      RoundsFront(d, batches);
      RoundsFlatten(d, init);
      NoDupConcat(Flatten(init), last);
      SetOfConcat(Flatten(init), last);
    }
  }

  lemma RoundsFront(d: DepMap, batches: seq<seq<Id>>)
    requires BatchesAreRounds(d, batches) && batches != []
    ensures BatchesAreRounds(d, batches[..|batches| - 1])
    ensures NoDup(batches[|batches| - 1]) && SetOf(batches[|batches| - 1]) == Layer(d, |batches| - 1)
  {
    hide Layer;
  }

  /** Each entry's dependencies occur before it. */
  ghost predicate DependenciesFirst(d: DepMap, h: seq<Id>) {
    forall j | 0 <= j < |h| :: h[j] in d && d[h[j]] <= SetOf(h[..j])
  }

  lemma RoundAppended(d: DepMap, k: nat, h: seq<Id>, more: seq<Id>)
    requires DependenciesFirst(d, h) && SetOf(h) == Done(d, k) && SetOf(more) <= Layer(d, k)
    ensures DependenciesFirst(d, h + more)
  {
    var all := h + more;
    forall j | 0 <= j < |all| ensures all[j] in d && d[all[j]] <= SetOf(all[..j]) {
      if j < |h| {
        assert all[..j] == h[..j];
      } else {
        assert all[j] in SetOf(more);
        assert all[..j] == h + more[..j - |h|];
        SetOfConcat(h, more[..j - |h|]);
      }
    }
  }

  lemma {:induction false} RoundsOrdered(d: DepMap, batches: seq<seq<Id>>)
    requires BatchesAreRounds(d, batches)
    ensures DependenciesFirst(d, Flatten(batches))
  {
    if batches != [] {
      hide Done, Layer, DependenciesFirst, BatchesAreRounds;
      var init, last := batches[..|batches| - 1], batches[|batches| - 1];
      RoundsFront(d, batches);
      RoundsOrdered(d, init);
      RoundsFlatten(d, init);
      RoundAppended(d, |init|, Flatten(init), last);
    }
  }

  /** No node is executed twice, and the execution order is a linear extension of the dependency
      relation: every dependency of an executed node was executed, or granted, before it. */
  lemma ExecutionOrder(ss: seq<State>, i: nat)
    requires IsRun(ss) && i < |ss|
    ensures NoDup(History(ss[i]))
    ensures DependenciesFirst(Deps(ss[i].w.g), History(ss[i]))
  {
    RunInv(ss, i);
    var s, d := ss[i], Deps(ss[i].w.g);
    hide Done, DependenciesFirst, BatchesAreRounds, IsRun, WorkOk, NamesOk, GatesGranted, PhaseOk, Flatten;
    RoundsFlatten(d, s.batches);
    RoundsOrdered(d, s.batches);
    NoDupConcat(Flatten(s.batches), s.tail);
    RoundAppended(d, |s.batches|, Flatten(s.batches), s.tail);
  }

  // ---------------------------------------------------------------- approval gates

  /** No agent runs while a gate among its transitive dependencies has not been granted, and a gate
      is in the history only by having been granted. */
  lemma ApprovalSafety(ss: seq<State>, i: nat, n: Id, gate: Id)
    requires IsRun(ss) && i < |ss| && n in History(ss[i])
    requires gate in ss[i].w.g.nodes && ss[i].w.g.nodes[gate].Approval()
    requires gate == n || DependsOn(Deps(ss[i].w.g), n, gate)
    ensures gate in ss[i].granted
  {
    RunInv(ss, i);
    var s, d := ss[i], Deps(ss[i].w.g);
    var k := |s.batches|;
    HistoryWithin(s, n);
    if gate == n {
      GateOfHistory(s, n);
    } else {
      var c: seq<Id> :| Chain(d, c) && |c| > 1 && c[0] == gate && Last(c) == n;
      DependencyDone(d, k, c);
    }
  }

  lemma HistoryWithin(s: State, n: Id)
    requires Inv(s) && n in History(s)
    ensures n in Done(Deps(s.w.g), |s.batches|) || n in s.tail
    ensures n in Done(Deps(s.w.g), |s.batches|) || n in Layer(Deps(s.w.g), |s.batches|)
  {
    hide Done, Layer, WorkOk, NamesOk, GatesGranted, PhaseOk, Flatten, BatchesAreRounds;
    RoundsFlatten(Deps(s.w.g), s.batches);
    if n in s.tail {
      assert n in SetOf(s.tail);
    } else {
      assert n in SetOf(Flatten(s.batches));
    }
  }

  lemma GateOfHistory(s: State, n: Id)
    requires Inv(s) && (n in Done(Deps(s.w.g), |s.batches|) || n in s.tail)
    requires n in s.w.g.nodes && s.w.g.nodes[n].Approval()
    ensures n in s.granted
  {
    hide Done, Layer, WorkOk, NamesOk, PhaseOk, BatchesAreRounds;
  }

  /** The start of a chain that ends in a done or ready node is done. */
  lemma DependencyDone(d: DepMap, k: nat, c: seq<Id>)
    requires Chain(d, c) && |c| > 1 && (Last(c) in Done(d, k) || Last(c) in Layer(d, k))
    ensures c[0] in Done(d, k)
  {
    if Last(c) in Done(d, k) {
      ChainBounded(d, k, c);
    } else {
      ChainStartsEarlier(d, k, c);
    }
  }

  /** The batch runner is handed ready agents only, never a gate, and any two of them are
      independent through every chain of dependencies. */
  lemma BatchIsSafe(ss: seq<State>, i: nat, s': State, results: seq<Status>, executed: seq<Id>, plans: Id -> Plan)
    requires IsRun(ss) && i < |ss| && BatchStep(ss[i], s', results, executed, plans)
    ensures var g, batch := ss[i].w.g, Ids(ReadyList(ss[i].w.g));
      && (forall n | n in executed :: n in g.nodes && !g.nodes[n].Approval())
      && (AdaptiveGraph.Independent(Deps(g), batch) <==> |batch| > 1)
      && (forall a, b | a in batch && b in batch :: !DependsOn(Deps(g), a, b))
  {
    RunInv(ss, i);
    var s, k := ss[i], |ss[i].batches|;
    var d, batch := Deps(s.w.g), Ids(ReadyList(s.w.g));
    ReadyIsRound(s, k);
    AgentsReady(s, k);
    RanAll(batch, results, executed);
    DoneDownClosed(d, k);
    hide Inv, IsRun, ReadyList, Done, Layer, BatchStep;
    BatchApart(d, k, batch);
    assert forall n | n in executed :: n in SetOf(executed);
  }

  lemma BatchApart(d: DepMap, k: nat, batch: seq<Id>)
    requires NoDup(batch) && SetOf(batch) == Layer(d, k)
    ensures AdaptiveGraph.Independent(d, batch) <==> |batch| > 1
    ensures forall a, b | a in batch && b in batch :: !DependsOn(d, a, b)
  {
    DoneDownClosed(d, k);
    AdaptiveGraph.ReadyBatchIndependent(d, Done(d, k), batch);
  }

  // ---------------------------------------------------------------- what one step does to the graph

  /** Nodes and their dependencies stay and only new agents come, and soundness and the size account are kept. */
  ghost predicate GraphKept(s: State, s': State) {
    && NodesExtend(s.w.g.nodes, s'.w.g.nodes)
    && (forall n | n in Deps(s.w.g) :: n in Deps(s'.w.g) && Deps(s'.w.g)[n] == Deps(s.w.g)[n])
    && (Sound(Deps(s.w.g)) ==> Sound(Deps(s'.w.g)))
    && Account(s'.w) == Account(s.w)
    && s'.w.budget <= s.w.budget && s'.w.spawned >= s.w.spawned
  }

  lemma BatchGrowth(s: State, j: nat, plans: Id -> Plan) returns (w1: Work)
    requires Inv(s) && s.phase.Running? && j <= |ReadyList(s.w.g)|
    ensures w1 == ProcessAll(s.w, ReadyList(s.w.g)[..j], plans)
    ensures Advanced(s.w, w1, |s.batches|, SetOf(Ids(ReadyList(s.w.g)[..j])))
  {
    ReadyProcessable(s, |s.batches|, j);
    hide Settled, ReadyList, Advanced, Processable, WorkOk, NamesOk, Done, Layer;
    ProcessAllAdvances(s.w, ReadyList(s.w.g)[..j], plans, |s.batches|);
    w1 := ProcessAll(s.w, ReadyList(s.w.g)[..j], plans);
  }

  lemma CompletesKeeps(s: State, s': State, executed: seq<Id>, plans: Id -> Plan)
    requires Inv(s) && BatchCompletes(s, s', executed, plans)
    ensures GraphKept(s, s')
    ensures s'.w.g.completed == s.w.g.completed + Layer(Deps(s.w.g), |s.batches|)
  {
    hide Inv, Done, Layer, Deps, ReadyList, WorkOk, NamesOk, Sound, Account, Advanced, IsOrdering, FirstGate;
    var k, ready := |s.batches|, ReadyList(s.w.g);
    SettledRunning(s);
    ReadyProcessable(s, k, |ready|);
    assert ready[..|ready|] == ready;
    var w1 := BatchGrowth(s, |ready|, plans);
    AdvancedKeeps(s.w, s'.w, k, Layer(Deps(s.w.g), k));
  }

  lemma SettledRunning(s: State)
    requires Inv(s) && !s.phase.Finished?
    ensures WorkOk(s.w) && NamesOk(s.w.g) && Settled(s, Deps(s.w.g), |s.batches|)
  {
    hide Deps, WorkOk, NamesOk, Settled, BatchesAreRounds, GatesGranted, TailOk;
  }

  lemma AdvancedKeeps(w: Work, w': Work, k: nat, done: set<Id>)
    requires Advanced(w, w', k, done)
    ensures forall n | n in Deps(w.g) :: n in Deps(w'.g) && Deps(w'.g)[n] == Deps(w.g)[n]
    ensures Sound(Deps(w.g)) ==> Sound(Deps(w'.g))
    ensures Account(w') == Account(w) && w'.budget <= w.budget && w'.spawned >= w.spawned
    ensures w'.g.completed == w.g.completed + done && NodesExtend(w.g.nodes, w'.g.nodes)
  {
    hide Deps, Sound, Account, Done, Layer, WorkOk, NamesOk, NodesExtend;
  }

  lemma BreaksShape(s: State, s': State, executed: seq<Id>, plans: Id -> Plan, j: nat, status: Status)
    requires BatchBreaks(s, s', executed, plans, j, status)
    ensures s.phase.Running? && j <= |ReadyList(s.w.g)|
    ensures var w1 := ProcessAll(s.w, ReadyList(s.w.g)[..j], plans);
      s'.w == w1.(g := w1.g.(failed := s'.w.g.failed))
  {
    hide ReadyList, ProcessAll;
  }

  lemma FailedSameGraph(s: State, s': State, w1: Work)
    requires s'.w == w1.(g := w1.g.(failed := s'.w.g.failed))
    requires forall n | n in Deps(s.w.g) :: n in Deps(w1.g) && Deps(w1.g)[n] == Deps(s.w.g)[n]
    requires Sound(Deps(s.w.g)) ==> Sound(Deps(w1.g))
    requires Account(w1) == Account(s.w) && w1.budget <= s.w.budget && w1.spawned >= s.w.spawned
    requires NodesExtend(s.w.g.nodes, w1.g.nodes)
    ensures GraphKept(s, s')
  {
    hide Sound, DepsOf;
  }

  lemma BreaksKeeps(s: State, s': State, executed: seq<Id>, plans: Id -> Plan, j: nat, status: Status)
    requires Inv(s) && BatchBreaks(s, s', executed, plans, j, status)
    ensures GraphKept(s, s')
  {
    hide *;
    BreaksShape(s, s', executed, plans, j, status);
    var w1 := BatchGrowth(s, j, plans);
    AdvancedKeeps(s.w, w1, |s.batches|, SetOf(Ids(ReadyList(s.w.g)[..j])));
    FailedSameGraph(s, s', w1);
  }

  lemma ResumeKeeps(s: State, s': State, ids: seq<Id>)
    requires Inv(s) && Resume(s, s', ids)
    ensures GraphKept(s, s')
    ensures s'.w.g.completed == s.w.g.completed + {s.phase.gate} && s.phase.gate !in s.w.g.completed
    ensures s'.w.g.nodes == s.w.g.nodes
  {
    ResumeShape(s, s', ids);
    RemarkedDeps(s, s'.w.g.completed);
    ReadyIsRound(s, |s.batches|);
  }

  lemma NextKeeps(s: State, s': State)
    requires Inv(s) && Next(s, s')
    ensures GraphKept(s, s')
  {
    hide Inv, Resume, BatchCompletes, BatchBreaks, BatchRan, ReadyList;
    if SafetyStop(s, s') || NothingReady(s, s') || Pause(s, s') {
    } else if exists ids :: Resume(s, s', ids) {
      var ids :| Resume(s, s', ids);
      ResumeKeeps(s, s', ids);
    } else {
      hide GraphKept;
      var results, executed, plans :| BatchStep(s, s', results, executed, plans);
      var j := GoodPrefix(results);
      if j == |results| {
        CompletesKeeps(s, s', executed, plans);
      } else {
        BreaksKeeps(s, s', executed, plans, j, results[j]);
      }
    }
  }

  lemma {:induction false} RunKeeps(ss: seq<State>, i: nat, j: nat)
    requires IsRun(ss) && i <= j < |ss|
    ensures GraphKept(ss[i], ss[j])
    decreases j
  {
    hide *;
    if i < j {
      RunKeeps(ss, i, j - 1);
      RunInv(ss, j - 1);
      RunStep(ss, j - 1);
      NextKeeps(ss[j - 1], ss[j]);
      KeptTrans(ss[i], ss[j - 1], ss[j]);
    } else {
      KeptRefl(ss[i]);
    }
  }

  lemma KeptRefl(s: State)
    ensures GraphKept(s, s)
  {
    hide Deps, Sound, Account;
  }

  lemma KeptTrans(s: State, s': State, s'': State)
    requires GraphKept(s, s') && GraphKept(s', s'')
    ensures GraphKept(s, s'')
  {
    hide Deps, Sound, Account;
  }

  lemma RunStep(ss: seq<State>, i: nat)
    requires IsRun(ss) && i + 1 < |ss|
    ensures Next(ss[i], ss[i + 1])
  {
    hide Next, Init;
  }

  // ---------------------------------------------------------------- no starvation

  /** A run that leaves with nothing ready has finished everything exactly when the graph it ended
      with is acyclic and names only existing nodes as dependencies. */
  lemma NoStarvation(ss: seq<State>, i: nat)
    requires IsRun(ss) && i < |ss| && ss[i].phase == Finished(Completed)
    ensures SetOf(History(ss[i])) == ss[i].w.g.nodes.Keys <==> Sound(Deps(ss[i].w.g))
  {
    RunInv(ss, i);
    var s, d := ss[i], Deps(ss[i].w.g);
    hide Inv, IsRun;
    FinishedDone(s);
    CompletesIffSound(d);
  }

  lemma FinishedDone(s: State)
    requires Inv(s) && s.phase == Finished(Completed)
    ensures SetOf(History(s)) == Done(Deps(s.w.g), |Deps(s.w.g)|)
  {
    hide Deps, Layer, WorkOk, NamesOk, GatesGranted, BatchesAreRounds, Flatten;
    RoundsFlatten(Deps(s.w.g), s.batches);
    assert History(s) == Flatten(s.batches);
    StuckIsFinal(Deps(s.w.g), |s.batches|);
  }

  /** Started on an acyclic, closed graph, a run that leaves with nothing ready has run every agent
      exactly once and had every gate granted, including all nodes inserted on the way and over any
      number of pauses. */
  lemma EveryNodeOnce(ss: seq<State>, i: nat)
    requires IsRun(ss) && i < |ss| && ss[i].phase == Finished(Completed)
    requires Sound(Deps(ss[0].w.g))
    ensures NoDup(History(ss[i])) && SetOf(History(ss[i])) == ss[i].w.g.nodes.Keys
    ensures forall n | n in ss[i].w.g.nodes :: ss[i].w.g.nodes[n].Approval() <==> n in ss[i].granted
  {
    RunKeeps(ss, 0, i);
    ExecutionOrder(ss, i);
    NoStarvation(ss, i);
    RunInv(ss, i);
    hide IsRun, Sound, DependenciesFirst;
    forall n | n in ss[i].w.g.nodes ensures ss[i].w.g.nodes[n].Approval() <==> n in ss[i].granted {
      assert n in SetOf(History(ss[i]));
      AllGatesGranted(ss[i], n);
    }
  }

  lemma AllGatesGranted(s: State, n: Id)
    requires Inv(s) && s.phase == Finished(Completed) && n in History(s) && n in s.w.g.nodes
    ensures s.w.g.nodes[n].Approval() <==> n in s.granted
  {
    HistoryWithin(s, n);
    hide Done, Layer, WorkOk, NamesOk, BatchesAreRounds;
  }

  // ---------------------------------------------------------------- growth and termination

  /** The final size: what there was, plus what was spawned, plus the retries spent.  Runtime
      spawning adds none or two nodes in all, so n nodes become at most n + 2 + budget. */
  lemma SizeBound(ss: seq<State>, i: nat)
    requires IsRun(ss) && i < |ss|
    ensures |ss[i].w.g.nodes| == |ss[0].w.g.nodes| + ss[i].w.spawned + (ss[0].w.budget - ss[i].w.budget)
    ensures ss[i].w.spawned == 0 || ss[i].w.spawned == 2
    ensures |ss[i].w.g.nodes| <= |ss[0].w.g.nodes| + 2 + ss[0].w.budget
  {
    RunKeeps(ss, 0, i);
    RunInv(ss, i);
    hide Deps, Sound, Next, NamesOk;
  }

  /** Unfinished nodes plus everything that may still be inserted. */
  ghost function Potential(w: Work): int {
    |w.g.nodes| - |w.g.completed| + (MAX_RUNTIME_SPAWNED - w.spawned) + w.budget
  }

  ghost function Rank(s: State): int {
    match s.phase
    case Running => 2 * Potential(s.w) + 2
    case Waiting(_) => 2 * Potential(s.w) + 1
    case Finished(_) => 0
  }

  lemma PotentialNat(s: State)
    requires Inv(s) && !s.phase.Finished?
    ensures Potential(s.w) >= 0
  {
    hide Layer, NamesOk, BatchesAreRounds, Agreement;
    DoneGrows(Deps(s.w.g), |s.batches|);
    SubsetCardinality(s.w.g.completed, s.w.g.nodes.Keys);
  }

  /** The account is constant, so the potential falls by as much as the completed set grows. */
  lemma PotentialFalls(w: Work, w': Work)
    requires Account(w') == Account(w) && w.g.completed <= w'.g.completed && w.g.completed != w'.g.completed
    ensures Potential(w') < Potential(w)
  {
    SubsetCardinality(w.g.completed, w'.g.completed);
  }

  /** Every step brings the run closer to its end. */
  lemma {:induction false} RankFalls(s: State, s': State)
    requires Inv(s) && Next(s, s')
    ensures 0 <= Rank(s') < Rank(s)
  {
    NextInv(s, s');
    if !s'.phase.Finished? { PotentialNat(s'); }
    if !s.phase.Finished? { PotentialNat(s); }
    hide Inv, Resume, BatchCompletes, BatchBreaks, BatchRan, ReadyList, Potential;
    if SafetyStop(s, s') || NothingReady(s, s') || Pause(s, s') {
    } else if exists ids :: Resume(s, s', ids) {
      var ids :| Resume(s, s', ids);
      ResumeRank(s, s', ids);
    } else {
      var results, executed, plans :| BatchStep(s, s', results, executed, plans);
      BatchRank(s, s', results, executed, plans);
    }
  }

  lemma ResumeRank(s: State, s': State, ids: seq<Id>)
    requires Inv(s) && Resume(s, s', ids)
    ensures s.phase.Waiting? && s'.phase.Running? && Potential(s'.w) < Potential(s.w)
  {
    ResumeKeeps(s, s', ids);
    hide Inv;
    PotentialFalls(s.w, s'.w);
  }

  lemma BatchRank(s: State, s': State, results: seq<Status>, executed: seq<Id>, plans: Id -> Plan)
    requires Inv(s) && BatchStep(s, s', results, executed, plans)
    ensures s.phase.Running?
    ensures s'.phase.Finished? || (s'.phase.Running? && Potential(s'.w) < Potential(s.w))
  {
    if GoodPrefix(results) == |results| {
      CompletesKeeps(s, s', executed, plans);
      ReadyIsRound(s, |s.batches|);
      var n := ReadyList(s.w.g)[0];
      assert n in ReadyList(s.w.g);
      hide Inv, ReadyList, Layer;
      PotentialFalls(s.w, s'.w);
    }
  }

  /** The scheduler terminates: a run has at most as many steps as its first rank, which is twice
      the node count plus twice the insertions still allowed, plus two. */
  lemma {:induction false} Termination(ss: seq<State>, i: nat)
    requires IsRun(ss) && i < |ss|
    ensures Rank(ss[i]) + i <= Rank(ss[0]) && Rank(ss[i]) >= 0
    ensures Rank(ss[0]) == 2 * (|ss[0].w.g.nodes| + 2 + ss[0].w.budget) + 2
  {
    if i == 0 {
      RunInv(ss, 0);
      hide Inv, Next, WorkOk, NamesOk;
      assert |ss[0].w.g.completed| == 0;
    } else {
      hide Inv, Init, Rank;
      Termination(ss, i - 1);
      RunInv(ss, i - 1);
      RunStep(ss, i - 1);
      hide Next;
      RankFalls(ss[i - 1], ss[i]);
    }
  }

  // ---------------------------------------------------------------- pause and resume

  /** At any pause, the graph rebuilt from the checkpoint has the same nodes and dependencies, and
      marking one more entry of a fresh order than were processed marks exactly the processed nodes
      and the gate, for every set order, if and only if no other node was ready. */
  lemma PauseResumeExact(ss: seq<State>, i: nat)
    requires IsRun(ss) && i < |ss| && ss[i].phase.Waiting?
    ensures SetOf(ss[i].sorted) == ss[i].w.g.nodes.Keys
    ensures Rebuilt(ss[i]).nodes == ss[i].w.g.nodes && Deps(Rebuilt(ss[i])) == Deps(ss[i].w.g)
    ensures (forall ids | IsOrdering(Rebuilt(ss[i]), ids) ::
               MarksExactly(ids, |ss[i].w.g.completed| + 1, ss[i].w.g.completed, ss[i].phase.gate))
       <==> ReadyIds(ss[i].w.g) == {ss[i].phase.gate}
  {
    hide IsRun, Inv, Done, Layer, WorkOk, NamesOk, Deps, Rebuilt, ReadyIds, MarksExactly, LayersSoFar;
    RunInv(ss, i);
    var s, k := ss[i], |ss[i].batches|;
    SettledRunning(s);
    GateReady(s);
    ReadyIsRound(s, k);
    RebuiltSame(s);
    ResumeExactIffGateAlone(Deps(s.w.g), s.w.g.nodes, k, s.phase.gate);
    forall ids: seq<Id> ensures IsOrdering(Rebuilt(s), ids) <==> ScratchOrder(Deps(s.w.g), s.w.g.nodes, ids) {
    }
  }

  /** What a resume marks at a pause with other nodes ready: in every set order only gates that have been
      granted, the present one included, if and only if no other ready node is a gate. */
  lemma {:induction false} OnlyGrantedMarkedIff(ss: seq<State>, i: nat)
    requires IsRun(ss) && i < |ss| && ss[i].phase.Waiting?
    ensures SetOf(ss[i].sorted) == ss[i].w.g.nodes.Keys
    ensures (forall ids | IsOrdering(Rebuilt(ss[i]), ids) :: MarksOnlyGranted(ss[i], ids))
       <==> forall n | n in ReadyIds(ss[i].w.g) && n != ss[i].phase.gate :: !IsGate(ss[i].w.g.nodes, n)
  {
    RunInv(ss, i);
    PauseMarks(ss[i]);
  }

  lemma PauseMarks(s: State)
    requires Inv(s) && s.phase.Waiting?
    ensures SetOf(s.sorted) == s.w.g.nodes.Keys
    ensures (forall ids | IsOrdering(Rebuilt(s), ids) :: MarksOnlyGranted(s, ids))
       <==> forall n | n in ReadyIds(s.w.g) && n != s.phase.gate :: !IsGate(s.w.g.nodes, n)
  {
    var k, d := |s.batches|, Deps(s.w.g);
    SettledRunning(s);
    PauseSettled(s);
    RebuiltScratch(s);
    hide Inv, Done, Layer, WorkOk, NamesOk, Deps, ReadyIds, IsOrdering, Rebuilt, ScratchOrder, Settled;
    hide MarksOnlyGranted;
    if o :| o in ReadyIds(s.w.g) && o != s.phase.gate && IsGate(s.w.g.nodes, o) {
      var ids := OrderPutsFirst(d, s.w.g.nodes, k, o);
      OtherGateMarked(s, k, ids);
    } else {
      forall ids | IsOrdering(Rebuilt(s), ids) ensures MarksOnlyGranted(s, ids) {
        ScratchOrderPrefix(d, s.w.g.nodes, ids, k);
        GrantedMarked(s, k, ids);
      }
    }
  }

  /** A pause in the terms of rounds. */
  lemma PauseSettled(s: State)
    requires Inv(s) && s.phase.Waiting?
    ensures var k, d := |s.batches|, Deps(s.w.g);
      && ReadyIds(s.w.g) == Layer(d, k) && s.phase.gate in Layer(d, k) && s.w.g.completed == Done(d, k)
      && NoDup(s.sorted) && SetOf(s.sorted) == s.w.g.nodes.Keys
  {
    SettledRunning(s);
    ReadyIsRound(s, |s.batches|);
    GateReady(s);
    hide Inv, Done, Layer, WorkOk, NamesOk, Deps, ReadyIds;
  }

  lemma OtherGateMarked(s: State, k: nat, ids: seq<Id>)
    requires Inv(s) && s.phase.Waiting? && k == |s.batches| && s.w.g.completed == Done(Deps(s.w.g), k)
    requires |Done(Deps(s.w.g), k)| < |ids| && ids[|Done(Deps(s.w.g), k)|] in Layer(Deps(s.w.g), k)
    requires ids[|Done(Deps(s.w.g), k)|] != s.phase.gate && IsGate(s.w.g.nodes, ids[|Done(Deps(s.w.g), k)|])
    ensures !MarksOnlyGranted(s, ids)
  {
    NotYetGranted(s, ids[|Done(Deps(s.w.g), k)|]);
    hide Inv, Done, Layer, Deps;
    OneMore(ids, |s.w.g.completed|);
  }

  lemma GrantedMarked(s: State, k: nat, ids: seq<Id>)
    requires Inv(s) && s.phase.Waiting? && k == |s.batches| && s.w.g.completed == Done(Deps(s.w.g), k)
    requires |s.w.g.completed| < |ids| && SetOf(ids[..|s.w.g.completed|]) == Done(Deps(s.w.g), k)
    requires var o := ids[|s.w.g.completed|]; o == s.phase.gate || !IsGate(s.w.g.nodes, o)
    ensures MarksOnlyGranted(s, ids)
  {
    DoneGranted(s);
    hide Inv, Done, Layer, Deps;
    OneMore(ids, |s.w.g.completed|);
  }

  predicate IsGate(nodes: map<Id, Node>, n: Id) {
    n in nodes && nodes[n].Approval()
  }

  /** The gates among the entries that a resume with this order marks have been granted or are the present one. */
  predicate MarksOnlyGranted(s: State, ids: seq<Id>)
    requires s.phase.Waiting?
  {
    |s.w.g.completed| < |ids|
    && forall n | n in SetOf(ids[..|s.w.g.completed| + 1]) && IsGate(s.w.g.nodes, n) :: n in s.granted + {s.phase.gate}
  }

  lemma OneMore(ids: seq<Id>, m: nat)
    requires m < |ids|
    ensures SetOf(ids[..m + 1]) == SetOf(ids[..m]) + {ids[m]}
  {
    assert ids[..m + 1] == ids[..m] + [ids[m]];
    SetOfConcat(ids[..m], [ids[m]]);
  }

  lemma RebuiltScratch(s: State)
    requires WorkOk(s.w) && NoDup(s.sorted) && SetOf(s.sorted) == s.w.g.nodes.Keys
    ensures forall ids :: IsOrdering(Rebuilt(s), ids) <==> ScratchOrder(Deps(s.w.g), s.w.g.nodes, ids)
  {
    RebuiltSame(s);
    hide Deps, WorkOk, LayersSoFar, Flatten, Rebuilt;
  }

  lemma DoneGranted(s: State)
    requires Inv(s)
    ensures forall n | n in Done(Deps(s.w.g), |s.batches|) && IsGate(s.w.g.nodes, n) :: n in s.granted
  {
    hide Deps, Done, Layer, WorkOk, NamesOk, BatchesAreRounds, TailOk, PhaseOk;
  }

  lemma NotYetGranted(s: State, o: Id)
    requires Inv(s) && o in Layer(Deps(s.w.g), |s.batches|)
    ensures o !in s.granted
  {
    hide Deps, WorkOk, NamesOk, BatchesAreRounds, TailOk, PhaseOk;
  }

  lemma GateReady(s: State)
    requires Inv(s) && s.phase.Waiting?
    ensures s.phase.gate in Layer(Deps(s.w.g), |s.batches|)
  {
    hide Deps, Layer, WorkOk, NamesOk, BatchesAreRounds, GatesGranted, TailOk;
  }

  /** Where the saved order comes from: it was taken with the present completed set, as after every batch, or
      from scratch, as when a resume begins a new segment. */
  ghost predicate OrderTaken(s: State) {
    IsOrdering(s.w.g, s.sorted) || ScratchOrder(Deps(s.w.g), s.w.g.nodes, s.sorted)
  }

  lemma ResumeTakes(s: State, s': State, ids: seq<Id>)
    requires Inv(s) && Resume(s, s', ids)
    ensures OrderTaken(s') && ScratchOrder(Deps(s'.w.g), s'.w.g.nodes, s'.sorted)
  {
    ResumeShape(s, s', ids);
    SettledRunning(s);
    hide IsOrdering, ScratchOrder, Inv, Deps, NamesOk, Done, Layer;
    RebuiltSame(s) by { hide WorkOk; }
    OrderFromScratch(s, ids);
    RemarkedDeps(s, s'.w.g.completed);
  }

  lemma NextTakes(s: State, s': State)
    requires Inv(s) && Next(s, s') && (s.phase.Finished? || OrderTaken(s))
    ensures s'.phase.Finished? || OrderTaken(s')
  {
    hide Inv, IsOrdering, ScratchOrder, Deps, ReadyList, BatchRan, Resume;
    if exists ids :: Resume(s, s', ids) {
      var ids :| Resume(s, s', ids);
      ResumeTakes(s, s', ids);
    }
  }

  /** In every unfinished state of every run the saved order is of one of the two kinds. */
  lemma {:induction false} SavedOrder(ss: seq<State>, i: nat)
    requires IsRun(ss) && i < |ss| && !ss[i].phase.Finished?
    ensures OrderTaken(ss[i])
  {
    RunStarts(ss);
    SavedOrderOrFinished(ss, i);
  }

  lemma RunStarts(ss: seq<State>)
    requires IsRun(ss)
    ensures Init(ss[0]) && IsOrdering(ss[0].w.g, ss[0].sorted)
    ensures ss[0].w.g.completed == {}
  {
    hide Next;
  }

  lemma {:induction false} SavedOrderOrFinished(ss: seq<State>, i: nat)
    requires IsRun(ss) && i < |ss|
    ensures ss[i].phase.Finished? || OrderTaken(ss[i])
  {
    hide *;
    if i > 0 {
      SavedOrderOrFinished(ss, i - 1);
      RunInv(ss, i - 1);
      RunStep(ss, i - 1);
      NextTakes(ss[i - 1], ss[i]);
    } else {
      RunStarts(ss);
      TakenNow(ss[0]);
    }
  }

  lemma TakenNow(s: State)
    requires IsOrdering(s.w.g, s.sorted)
    ensures OrderTaken(s)
  {
    hide IsOrdering, ScratchOrder, Deps;
  }

  lemma PausesFrom(ss: seq<State>, i: nat)
    requires IsRun(ss) && i < |ss| && ss[i].phase.Waiting?
    ensures i > 0 && Pause(ss[i - 1], ss[i])
  {
    hide ReadyList, IsOrdering, BatchRan, ProcessAll, Rebuilt, ReadyIds;
    RunStarts(ss);
    if i > 0 { RunStep(ss, i - 1); }
  }

  /** A pause in the first pass after a start or a resume. */
  predicate OpensSegment(ss: seq<State>, i: nat)
    requires 0 < i < |ss|
  {
    i == 1 || ss[i - 2].phase.Waiting?
  }

  lemma ResumeBefore(ss: seq<State>, i: nat) returns (ids: seq<Id>)
    requires IsRun(ss) && 2 <= i < |ss| && ss[i - 2].phase.Waiting?
    ensures Resume(ss[i - 2], ss[i - 1], ids)
  {
    hide ReadyList, IsOrdering, BatchRan, ProcessAll, ResumeAnywhere, ReadyIds;
    RunStep(ss, i - 2);
    ids :| Resume(ss[i - 2], ss[i - 1], ids);
  }

  lemma SegmentOrder(ss: seq<State>, i: nat)
    requires IsRun(ss) && i < |ss| && ss[i].phase.Waiting? && i > 0 && OpensSegment(ss, i)
    ensures ScratchOrder(Deps(ss[i].w.g), ss[i].w.g.nodes, ss[i].sorted) || ss[i].w.g.completed == {}
  {
    hide *;
    PausesFrom(ss, i);
    PauseKeeps(ss[i - 1], ss[i]);
    if i == 1 {
      RunStarts(ss);
    } else {
      WaitingTwoBack(ss, i);
      var ids := ResumeBefore(ss, i);
      RunInv(ss, i - 2);
      ResumeTakes(ss[i - 2], ss[i - 1], ids);
    }
  }

  lemma PauseKeeps(s: State, s': State)
    requires Pause(s, s')
    ensures s.phase.Running? && s'.w == s.w && s'.sorted == s.sorted
  {
    hide ReadyList;
  }

  lemma WaitingTwoBack(ss: seq<State>, i: nat)
    requires 1 < i < |ss| && OpensSegment(ss, i)
    ensures ss[i - 2].phase.Waiting?
  {
  }

  /** The resume records entry `current_idx - 1` of the saved order as the approved node.  That entry is the
      gate when the pause comes in the first pass after a start or a resume, or nothing has completed; and
      of the orders that can be taken with the marks made, as after every batch, all have the gate there
      only if nothing has. */
  lemma {:induction false} RecordedApproval(ss: seq<State>, i: nat)
    requires IsRun(ss) && i < |ss| && ss[i].phase.Waiting?
    requires ReadyIds(ss[i].w.g) == {ss[i].phase.gate}
    ensures i > 0 && OrderTaken(ss[i]) && |ss[i].w.g.completed| < |ss[i].sorted|
    ensures OpensSegment(ss, i) || ss[i].w.g.completed == {} ==> ss[i].sorted[|ss[i].w.g.completed|] == ss[i].phase.gate
    ensures (forall ids | IsOrdering(ss[i].w.g, ids) ::
               |ss[i].w.g.completed| < |ids| && ids[|ss[i].w.g.completed|] == ss[i].phase.gate)
       <==> ss[i].w.g.completed == {}
  {
    hide *;
    RunInv(ss, i);
    SavedOrder(ss, i);
    PausesFrom(ss, i);
    if OpensSegment(ss, i) { SegmentOrder(ss, i); }
    EntryAtPause(ss[i]);
  }

  /** The entry that a resume from this pause records. */
  lemma EntryAtPause(s: State)
    requires Inv(s) && s.phase.Waiting? && ReadyIds(s.w.g) == {s.phase.gate}
    ensures |s.w.g.completed| < |s.sorted|
    ensures s.w.g.completed == {} && OrderTaken(s) ==> s.sorted[|s.w.g.completed|] == s.phase.gate
    ensures ScratchOrder(Deps(s.w.g), s.w.g.nodes, s.sorted) ==> s.sorted[|s.w.g.completed|] == s.phase.gate
    ensures (forall ids | IsOrdering(s.w.g, ids) ::
               |s.w.g.completed| < |ids| && ids[|s.w.g.completed|] == s.phase.gate)
       <==> s.w.g.completed == {}
  {
    var k := |s.batches|;
    SettledRunning(s);
    PauseSettled(s);
    GateOutside(s, k);
    hide Inv, Done, Layer, WorkOk, NamesOk, Deps, ReadyIds, LayersSoFar, Flatten, ScratchOrder, Settled;
    RecordedApprovalIffNothingDone(Deps(s.w.g), s.w.g.nodes, k, s.phase.gate);
    if ScratchOrder(Deps(s.w.g), s.w.g.nodes, s.sorted) {
      ScratchOrderPrefix(Deps(s.w.g), s.w.g.nodes, s.sorted, k);
    }
  }

  /** A pause right after a batch has a sibling: the same run but for the order taken after that batch, and the
      entry recorded there is another node. */
  lemma {:induction false} OtherOrderRecorded(ss: seq<State>, i: nat) returns (ids: seq<Id>)
    requires IsRun(ss) && i < |ss| && ss[i].phase.Waiting? && i > 0 && !OpensSegment(ss, i)
    requires ReadyIds(ss[i].w.g) == {ss[i].phase.gate}
    ensures i >= 2 && IsRun(ss[..i - 1] + [ss[i - 1].(sorted := ids), ss[i].(sorted := ids)])
    ensures |ss[i].w.g.completed| < |ids| && ids[|ss[i].w.g.completed|] != ss[i].phase.gate
  {
    var s := ss[i];
    PausesFrom(ss, i);
    SomethingDone(ss, i);
    RecordedApproval(ss, i);
    hide IsRun, Deps, ReadyIds, IsOrdering, Rank;
    ids :| IsOrdering(s.w.g, ids)
           && !(|s.w.g.completed| < |ids| && ids[|s.w.g.completed|] == s.phase.gate);
    OrderingCovers(s.w.g, ids);
    SavedCovers(ss, i);
    NoDupCardinality(ids);
    NoDupCardinality(s.sorted);
    Reordered(ss, i, ids);
  }

  lemma SavedCovers(ss: seq<State>, i: nat)
    requires IsRun(ss) && i < |ss| && ss[i].phase.Waiting?
    ensures NoDup(ss[i].sorted) && SetOf(ss[i].sorted) == ss[i].w.g.nodes.Keys
  {
    RunInv(ss, i);
    SettledRunning(ss[i]);
    hide Inv, Deps, WorkOk, NamesOk, Done, Layer;
  }

  lemma BatchBefore(ss: seq<State>, i: nat) returns (results: seq<Status>, executed: seq<Id>, plans: Id -> Plan)
    requires IsRun(ss) && 2 <= i < |ss| && ss[i - 1].phase.Running? && !ss[i - 2].phase.Waiting?
    ensures BatchStep(ss[i - 2], ss[i - 1], results, executed, plans)
    ensures BatchCompletes(ss[i - 2], ss[i - 1], executed, plans)
  {
    hide ReadyList, IsOrdering, BatchRan, ProcessAll, ResumeAnywhere, BatchCompletes;
    RunStep(ss, i - 2);
    results, executed, plans :| BatchStep(ss[i - 2], ss[i - 1], results, executed, plans);
  }

  lemma NotOpening(ss: seq<State>, i: nat)
    requires 0 < i < |ss| && !OpensSegment(ss, i)
    ensures i >= 2 && !ss[i - 2].phase.Waiting?
  {
  }

  lemma SomethingDone(ss: seq<State>, i: nat)
    requires IsRun(ss) && i < |ss| && ss[i].phase.Waiting? && i > 0 && !OpensSegment(ss, i)
    ensures ss[i].w.g.completed != {}
  {
    hide *;
    PausesFrom(ss, i);
    PauseKeeps(ss[i - 1], ss[i]);
    NotOpening(ss, i);
    var results, executed, plans := BatchBefore(ss, i);
    RunInv(ss, i - 2);
    CompletesKeeps(ss[i - 2], ss[i - 1], executed, plans);
    NonemptyBatch(ss[i - 2], ss[i - 1], executed, plans);
  }

  lemma NonemptyBatch(s: State, s': State, executed: seq<Id>, plans: Id -> Plan)
    requires Inv(s) && BatchCompletes(s, s', executed, plans)
    ensures Layer(Deps(s.w.g), |s.batches|) != {}
  {
    SettledRunning(s);
    ReadyIsRound(s, |s.batches|);
    hide Inv, Deps, Layer, ReadyList, IsOrdering, ProcessAll, WorkOk, NamesOk;
    assert ReadyList(s.w.g)[0].id in SetOf(Ids(ReadyList(s.w.g))) by {
      assert Ids(ReadyList(s.w.g))[0] == ReadyList(s.w.g)[0].id;
    }
  }

  lemma Reordered(ss: seq<State>, i: nat, ids: seq<Id>)
    requires IsRun(ss) && i < |ss| && ss[i].phase.Waiting? && i > 0 && !OpensSegment(ss, i)
    requires IsOrdering(ss[i].w.g, ids)
    ensures i >= 2 && IsRun(ss[..i - 1] + [ss[i - 1].(sorted := ids), ss[i].(sorted := ids)])
  {
    hide IsRun, Next, BatchStep, BatchCompletes, IsOrdering, ReadyList;
    PausesFrom(ss, i);
    NotOpening(ss, i);
    var a, b, c := ss[i - 2], ss[i - 1].(sorted := ids), ss[i].(sorted := ids);
    var results, executed, plans := BatchBefore(ss, i);
    SameBatch(a, ss[i - 1], ids, results, executed, plans);
    PauseReordered(ss[i - 1], ss[i], ids);
    RunCut(ss, i - 1);
    RunLonger(ss[..i - 1], b);
    RunLonger(ss[..i - 1] + [b], c);
    assert ss[..i - 1] + [b] + [c] == ss[..i - 1] + [b, c];
  }

  lemma PauseReordered(s: State, s': State, ids: seq<Id>)
    requires Pause(s, s')
    ensures Next(s.(sorted := ids), s'.(sorted := ids))
  {
    hide ReadyList;
    assert Pause(s.(sorted := ids), s'.(sorted := ids));
  }

  lemma SameBatch(a: State, b: State, ids: seq<Id>, results: seq<Status>, executed: seq<Id>, plans: Id -> Plan)
    requires BatchStep(a, b, results, executed, plans) && BatchCompletes(a, b, executed, plans)
        && IsOrdering(b.w.g, ids)
    ensures Next(a, b.(sorted := ids))
  {
    hide ReadyList, IsOrdering, BatchRan, ProcessAll;
    assert BatchStep(a, b.(sorted := ids), results, executed, plans);
  }

  lemma RunCut(ss: seq<State>, k: nat)
    requires IsRun(ss) && 0 < k <= |ss|
    ensures IsRun(ss[..k])
  {
    hide Next, Init;
  }

  lemma RunLonger(ss: seq<State>, s: State)
    requires IsRun(ss) && Next(ss[|ss| - 1], s)
    ensures IsRun(ss + [s])
  {
    hide Next, Init;
  }

  lemma GateOutside(s: State, k: nat)
    requires Settled(s, Deps(s.w.g), k) && s.phase.Waiting? && s.phase.gate in Layer(Deps(s.w.g), k)
    ensures |s.w.g.completed| < |s.sorted|
  {
    hide Deps;
    var d := Deps(s.w.g);
    DoneGrows(d, k);
    assert s.phase.gate !in Done(d, k) && s.phase.gate in d.Keys;
    SubsetCardinality(s.w.g.completed + {s.phase.gate}, s.w.g.nodes.Keys);
    NoDupCardinality(s.sorted);
  }

  // ---------------------------------------------------------------- the completed set is closed

  /** Marking a ready node keeps the completed set closed under dependencies, and so does hanging a new node
      off an existing one. */
  lemma MarkAndHangClosed(d: DepMap, done: set<Id>, n: Id, p: Id, c: Id)
    requires DownClosed(d, done)
    ensures n in Ready(d, done) ==> DownClosed(d, done + {n})
    ensures Hangable(d, p, c) ==> DownClosed(d[c := {p}], done)
  {
  }

  /** Post-step processing of one finished node whose dependencies are completed keeps the set closed, spawned
      children and recovery node included. */
  lemma ProcessKeepsClosed(w: Work, p: Id, plan: Plan, k: nat)
    requires WorkOk(w) && NamesOk(w.g) && DownClosed(Deps(w.g), w.g.completed)
    requires p in w.g.nodes && p in Layer(Deps(w.g), k) && p in Ready(Deps(w.g), w.g.completed)
    ensures var w' := ProcessCompleted(w, w.g.nodes[p], plan); DownClosed(Deps(w'.g), w'.g.completed)
  {
    hide *;
    var w' := ProcessCompleted(w, w.g.nodes[p], plan);
    ReadyNotDone(Deps(w.g), w.g.completed, p);
    ProcessAdvances(w, p, plan, k);
    AdvancedKeeps(w, w', k, {p});
    MarkAndHangClosed(Deps(w.g), w.g.completed, p, p, p);
    ClosedSurvives(Deps(w.g), Deps(w'.g), w.g.completed + {p});
  }

  lemma ReadyNotDone(d: DepMap, done: set<Id>, p: Id)
    requires p in Ready(d, done)
    ensures p !in done
  {
  }

  lemma ClosedSurvives(d: DepMap, d': DepMap, done: set<Id>)
    requires DownClosed(d, done) && forall n | n in d :: n in d' && d'[n] == d[n]
    ensures DownClosed(d', done)
  {
  }

  lemma PartOfRound(d: DepMap, k: nat, part: set<Id>)
    requires part <= Layer(d, k)
    ensures DownClosed(d, Done(d, k) + part)
  {
    DoneDownClosed(d, k);
  }

  lemma BatchClosed(s: State, j: nat, plans: Id -> Plan)
    requires Inv(s) && s.phase.Running? && j <= |ReadyList(s.w.g)|
    ensures var w1 := ProcessAll(s.w, ReadyList(s.w.g)[..j], plans); DownClosed(Deps(w1.g), w1.g.completed)
  {
    var k := |s.batches|;
    SettledRunning(s);
    ReadyProcessable(s, k, j);
    var w1 := BatchGrowth(s, j, plans);
    hide Inv, Deps, WorkOk, NamesOk, Done, Layer, ReadyList, ProcessAll, Account, Sound, NodesExtend, Processable;
    var part := SetOf(Ids(ReadyList(s.w.g)[..j]));
    PartOfRound(Deps(s.w.g), k, part);
    AdvancedKeeps(s.w, w1, k, part);
    ClosedSurvives(Deps(s.w.g), Deps(w1.g), Done(Deps(s.w.g), k) + part);
  }

  lemma UnfinishedClosed(s: State)
    requires Inv(s) && !s.phase.Finished?
    ensures DownClosed(Deps(s.w.g), s.w.g.completed)
  {
    SettledRunning(s);
    hide Inv, Deps, WorkOk, NamesOk, Layer, Done, DownClosed;
    DoneDownClosed(Deps(s.w.g), |s.batches|);
  }

  lemma BreaksClosed(s: State, s': State, executed: seq<Id>, plans: Id -> Plan, j: nat, status: Status)
    requires Inv(s) && BatchBreaks(s, s', executed, plans, j, status)
    ensures DownClosed(Deps(s'.w.g), s'.w.g.completed)
  {
    hide *;
    BreaksShape(s, s', executed, plans, j, status);
    BatchClosed(s, j, plans);
    FailedMarkOnly(s'.w, ProcessAll(s.w, ReadyList(s.w.g)[..j], plans));
  }

  lemma FailedMarkOnly(w: Work, w1: Work)
    requires w == w1.(g := w1.g.(failed := w.g.failed))
    ensures Deps(w.g) == Deps(w1.g) && w.g.completed == w1.g.completed
  {
  }

  lemma NextClosed(s: State, s': State)
    requires Inv(s) && Next(s, s')
    ensures DownClosed(Deps(s'.w.g), s'.w.g.completed)
  {
    hide Inv, Deps, DownClosed, ReadyList, BatchRan, Resume, BatchCompletes, BatchBreaks;
    NextInv(s, s');
    if !s'.phase.Finished? {
      UnfinishedClosed(s');
    } else if SafetyStop(s, s') || NothingReady(s, s') {
      UnfinishedClosed(s);
    } else {
      EndsByBreak(s, s');
      var results, executed, plans :| BatchStep(s, s', results, executed, plans);
      EndingBatch(s, s', results, executed, plans);
      BreaksClosed(s, s', executed, plans, GoodPrefix(results), results[GoodPrefix(results)]);
    }
  }

  lemma EndsByBreak(s: State, s': State)
    requires Next(s, s') && s'.phase.Finished? && !SafetyStop(s, s') && !NothingReady(s, s')
    ensures exists results, executed, plans :: BatchStep(s, s', results, executed, plans)
  {
    hide BatchStep, ReadyList, IsOrdering, Rebuilt, ReadyIds;
  }

  lemma EndingBatch(s: State, s': State, results: seq<Status>, executed: seq<Id>, plans: Id -> Plan)
    requires BatchStep(s, s', results, executed, plans) && s'.phase.Finished?
    ensures GoodPrefix(results) < |results|
    ensures BatchBreaks(s, s', executed, plans, GoodPrefix(results), results[GoodPrefix(results)])
  {
    hide BatchRan, BatchBreaks, ReadyList, IsOrdering, ProcessAll, GoodPrefix;
  }

  /** At every moment of every run, failed and cancelled ends included, the completed set is closed under the
      dependencies of the graph as it then is. */
  lemma {:induction false} CompletedClosed(ss: seq<State>, i: nat)
    requires IsRun(ss) && i < |ss|
    ensures DownClosed(Deps(ss[i].w.g), ss[i].w.g.completed)
  {
    if i > 0 {
      hide *;
      RunInv(ss, i - 1);
      RunStep(ss, i - 1);
      NextClosed(ss[i - 1], ss[i]);
    } else {
      RunStarts(ss);
      hide Deps, IsRun, Init;
    }
  }
}
