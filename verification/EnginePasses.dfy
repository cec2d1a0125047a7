/** One pass of the scheduler loop as its environment decides it, and what follows for whole calls: which outcome
    a call has, and why. */
module EnginePasses {
  import opened Layering
  import opened Sequences
  import opened GraphModel
  import opened ExecutionLayers
  import opened PostStep
  import opened PostStepEffects
  import opened Scheduler
  import opened SchedulerInvariant
  import opened SchedulerTheorems
  import opened BatchRunner
  import opened Wrappers

  /** What happens outside the scheduler: the safety guard's answer at each pass, the strategy's
      choice of mode, the ends of the steps, and the planner's and reflection's decisions. */
  datatype Env = Env(safe: nat -> bool, parallelEnabled: bool, steps: Steps, plans: Id -> Plan)

  /** The i-th of the nodes is the first gate among them. */
  ghost predicate GateFirst(ns: seq<Node>, i: nat) {
    i < |ns| && ns[i].Approval() && forall j | 0 <= j < i :: !ns[j].Approval()
  }

  ghost predicate NoGate(ns: seq<Node>) {
    forall n | n in ns :: !n.Approval()
  }

  ghost predicate BatchPass(s: State, s': State, env: Env, results: seq<Status>, executed: seq<Id>) {
    && StepsRan(Deps(s.w.g), Ids(ReadyList(s.w.g)), env.parallelEnabled, env.steps, results, executed)
    && BatchStep(s, s', results, executed, env.plans)
  }

  /** The guard is asked first; then it matters whether anything is ready, and whether a gate is; only
      agents make a batch. */
  ghost predicate PassStep(s: State, s': State, env: Env, pass: nat) {
    var ready := ReadyList(s.w.g);
    && s.phase.Running?
    && if !env.safe(pass) then s' == s.(phase := Finished(Failed))
       else if ready == [] then s' == s.(phase := Finished(Completed))
       else if !NoGate(ready) then exists i: nat :: GateFirst(ready, i) && s' == s.(phase := Waiting(ready[i].id))
       else exists results, executed :: BatchPass(s, s', env, results, executed)
  }

  /** From state `first` on, the states of the run are the passes of one call. */
  ghost predicate Passes(run: seq<State>, first: nat, env: Env) {
    && first < |run| && run[first].phase.Running?
    && forall i, j | first <= i && j == i + 1 && j < |run| :: PassStep(run[i], run[j], env, i - first)
  }

  // ---------------------------------------------------------------- one pass

  lemma {:induction false} FirstGateIs(ns: seq<Node>) returns (i: nat)
    requires FirstGate(ns).Some?
    ensures GateFirst(ns, i) && FirstGate(ns) == Some(ns[i])
  {
    if ns[0].Approval() {
      i := 0;
    } else {
      i := FirstGateIs(ns[1..]);
      i := i + 1;
      assert forall j | 0 < j < |ns| :: ns[j] == ns[1..][j - 1];
    }
  }

  lemma {:induction false} GateExists(ns: seq<Node>, i: nat)
    requires GateFirst(ns, i)
    ensures !NoGate(ns)
  {
    assert ns[i] in ns;
  }

  lemma {:induction false} StopPass(s: State, env: Env, pass: nat)
    requires s.phase.Running? && !env.safe(pass)
    ensures PassStep(s, s.(phase := Finished(Failed)), env, pass)
  {
  }

  lemma {:induction false} EmptyPass(s: State, env: Env, pass: nat)
    requires s.phase.Running? && env.safe(pass) && ReadyList(s.w.g) == []
    ensures PassStep(s, s.(phase := Finished(Completed)), env, pass)
  {
    hide ReadyList;
  }

  lemma {:induction false} GatePass(s: State, env: Env, pass: nat, gate: Node)
    requires s.phase.Running? && env.safe(pass) && FirstGate(ReadyList(s.w.g)) == Some(gate)
    ensures PassStep(s, s.(phase := Waiting(gate.id)), env, pass)
  {
    hide ReadyList;
    var i := FirstGateIs(ReadyList(s.w.g));
    GateExists(ReadyList(s.w.g), i);
  }

  lemma {:induction false} RanPass(s: State, s': State, env: Env, pass: nat, results: seq<Status>, executed: seq<Id>)
    requires s.phase.Running? && env.safe(pass) && ReadyList(s.w.g) != [] && FirstGate(ReadyList(s.w.g)).None?
    requires BatchPass(s, s', env, results, executed)
    ensures PassStep(s, s', env, pass)
  {
    hide ReadyList, BatchPass;
  }

  // ---------------------------------------------------------------- what one pass decides

  ghost predicate AllComplete(ns: seq<Node>, steps: Steps) {
    forall n | n in ns :: EndsWith(steps, n.id, Completed)
  }

  /** The i-th of the nodes is the first whose step does not complete; it ends with `status`. */
  ghost predicate BreaksAt(ns: seq<Node>, steps: Steps, i: nat, status: Status) {
    && i < |ns| && EndsWith(steps, ns[i].id, status) && status != Completed
    && forall j | 0 <= j < i :: EndsWith(steps, ns[j].id, Completed)
  }

  lemma {:induction false} EndsOneWay(steps: Steps, n: Id, a: Status, b: Status)
    requires EndsWith(steps, n, a) && EndsWith(steps, n, b)
    ensures a == b
  {
  }

  lemma {:induction false} BatchEnd(s: State, s': State, env: Env, results: seq<Status>,
                                    executed: seq<Id>) returns (k: nat)
    requires BatchPass(s, s', env, results, executed)
    ensures k <= |results| <= |ReadyList(s.w.g)|
    ensures forall i | 0 <= i < k :: results[i] == Completed
    ensures forall i | 0 <= i < k :: EndsWith(env.steps, ReadyList(s.w.g)[i].id, Completed)
    ensures k == |results| ==> s'.phase == s.phase && |results| == |ReadyList(s.w.g)|
    ensures k < |results| ==>
              && results[k] != Completed && EndsWith(env.steps, ReadyList(s.w.g)[k].id, results[k])
              && s'.phase == Finished(results[k])
  {
    hide ReadyList, IsOrdering, ProcessAll, EndsWith, Unrelated, FirstGate;
    k := GoodPrefix(results);
    var ready := ReadyList(s.w.g);
    forall i | 0 <= i < |results| ensures EndsWith(env.steps, ready[i].id, results[i]) {
      assert Ids(ready)[i] == ready[i].id;
    }
  }

  /** The loop goes on exactly after a permitted pass over ready agents, there being some, whose steps
      all complete. */
  lemma {:induction false} GoesOnIff(s: State, s': State, env: Env, pass: nat)
    requires PassStep(s, s', env, pass)
    ensures var ready := ReadyList(s.w.g);
      s'.phase.Running? <==> env.safe(pass) && ready != [] && NoGate(ready) && AllComplete(ready, env.steps)
  {
    hide ReadyList, BatchPass, EndsWith;
    var ready := ReadyList(s.w.g);
    if env.safe(pass) && ready != [] && NoGate(ready) {
      var results, executed :| BatchPass(s, s', env, results, executed);
      var k := BatchEnd(s, s', env, results, executed);
      if k < |results| {
        if AllComplete(ready, env.steps) {
          assert ready[k] in ready;
          EndsOneWay(env.steps, ready[k].id, results[k], Completed);
        }
      }
    }
  }

  /** It pauses exactly when a permitted pass finds a gate among what is ready: at the first. */
  lemma {:induction false} PausesIff(s: State, s': State, env: Env, pass: nat, i: nat)
    requires PassStep(s, s', env, pass)
    ensures s'.phase.Waiting? <==> env.safe(pass) && !NoGate(ReadyList(s.w.g))
    ensures s'.phase.Waiting? && GateFirst(ReadyList(s.w.g), i) ==> s'.phase.gate == ReadyList(s.w.g)[i].id
  {
    hide ReadyList, BatchPass;
    var ready := ReadyList(s.w.g);
    if env.safe(pass) && ready != [] && NoGate(ready) {
      var results, executed :| BatchPass(s, s', env, results, executed);
      var k := BatchEnd(s, s', env, results, executed);
    } else if s'.phase.Waiting? && GateFirst(ready, i) {
      var j: nat :| GateFirst(ready, j) && s' == s.(phase := Waiting(ready[j].id));
      assert i == j;
    }
  }

  /** It ends with a status exactly when the guard refuses (failed), when nothing is ready (completed), or
      when that is how the first step ends that does not complete. */
  lemma {:induction false} EndsIff(s: State, s': State, env: Env, pass: nat, status: Status)
    requires PassStep(s, s', env, pass)
    ensures var ready := ReadyList(s.w.g);
      s'.phase == Finished(status) <==>
        || (!env.safe(pass) && status == Failed)
        || (env.safe(pass) && ready == [] && status == Completed)
        || (env.safe(pass) && NoGate(ready) && exists i :: BreaksAt(ready, env.steps, i, status))
  {
    hide ReadyList, BatchPass, EndsWith;
    var ready := ReadyList(s.w.g);
    if env.safe(pass) && ready != [] && NoGate(ready) {
      var results, executed :| BatchPass(s, s', env, results, executed);
      var k := BatchEnd(s, s', env, results, executed);
      if k < |results| {
        assert BreaksAt(ready, env.steps, k, results[k]);
        NotAlsoCompleted(env.steps, ready[k].id, results[k]);
      }
      forall i | BreaksAt(ready, env.steps, i, status) ensures s'.phase == Finished(status) {
        BreaksOnce(ready, env.steps, i, status, k);
        if k < |results| { EndsOneWay(env.steps, ready[k].id, results[k], status); }
      }
    }
  }

  lemma {:induction false} BreaksOnce(ns: seq<Node>, steps: Steps, i: nat, status: Status, k: nat)
    requires BreaksAt(ns, steps, i, status) && k <= |ns|
    requires forall j | 0 <= j < k :: EndsWith(steps, ns[j].id, Completed)
    ensures k <= i
    ensures k < |ns| && !EndsWith(steps, ns[k].id, Completed) ==> k == i
  {
    hide EndsWith;
    if i < k { EndsOneWay(steps, ns[i].id, status, Completed); }
  }

  lemma {:induction false} NotAlsoCompleted(steps: Steps, n: Id, status: Status)
    requires EndsWith(steps, n, status) && status != Completed
    ensures !EndsWith(steps, n, Completed)
  {
  }

  /** Where the first step that does not complete stands: behind all of them when there is none. */
  lemma {:induction false} BatchWork(s: State, s': State, env: Env, pass: nat, k: nat, status: Status)
    requires PassStep(s, s', env, pass) && env.safe(pass) && ReadyList(s.w.g) != [] && NoGate(ReadyList(s.w.g))
    requires if k == |ReadyList(s.w.g)| then AllComplete(ReadyList(s.w.g), env.steps)
             else BreaksAt(ReadyList(s.w.g), env.steps, k, status)
    ensures k <= |ReadyList(s.w.g)|
    ensures var w := ProcessAll(s.w, ReadyList(s.w.g)[..k], env.plans);
      s'.w == if k < |ReadyList(s.w.g)| && status == Failed
              then w.(g := w.g.(failed := w.g.failed + {ReadyList(s.w.g)[k].id})) else w
  {
    hide ReadyList, BatchPass, EndsWith;
    var ready := ReadyList(s.w.g);
    var results, executed :| BatchPass(s, s', env, results, executed);
    var j := BatchEnd(s, s', env, results, executed);
    if k < |ready| {
      BreaksOnce(ready, env.steps, k, status, j);
      if j < |results| {
        NotAlsoCompleted(env.steps, ready[j].id, results[j]);
        EndsOneWay(env.steps, ready[k].id, results[k], status);
      }
    } else if j < |results| {
      assert ready[j] in ready;
      EndsOneWay(env.steps, ready[j].id, results[j], Completed);
    }
    hide BreaksAt, AllComplete;
    BatchWorkAt(s, s', env, results, executed, j);
  }

  lemma {:induction false} BatchWorkAt(s: State, s': State, env: Env, results: seq<Status>, executed: seq<Id>, k: nat)
    requires BatchPass(s, s', env, results, executed) && k <= |results| <= |ReadyList(s.w.g)|
    requires forall i | 0 <= i < k :: results[i] == Completed
    requires if k < |results| then results[k] != Completed else |results| == |ReadyList(s.w.g)|
    ensures var w := ProcessAll(s.w, ReadyList(s.w.g)[..k], env.plans);
      s'.w == if k < |results| && results[k] == Failed
              then w.(g := w.g.(failed := w.g.failed + {ReadyList(s.w.g)[k].id})) else w
  {
    hide ReadyList, IsOrdering, ProcessAll, StepsRan, FirstGate, BatchRan;
    var j := GoodPrefix(results);
    assert j == k;
    assert ReadyList(s.w.g)[..|ReadyList(s.w.g)|] == ReadyList(s.w.g);
  }

  /** A batch marks as completed the nodes before the first step that does not complete, and as failed that
      node, if it failed. */
  lemma {:induction false} BatchMarks(s: State, s': State, env: Env, pass: nat, k: nat, status: Status)
    requires PassStep(s, s', env, pass) && env.safe(pass) && ReadyList(s.w.g) != [] && NoGate(ReadyList(s.w.g))
    requires if k == |ReadyList(s.w.g)| then AllComplete(ReadyList(s.w.g), env.steps)
             else BreaksAt(ReadyList(s.w.g), env.steps, k, status)
    ensures k <= |ReadyList(s.w.g)|
    ensures s'.w.g.completed == s.w.g.completed + SetOf(Ids(ReadyList(s.w.g)[..k]))
    ensures s'.w.g.failed
         == s.w.g.failed + (if k < |ReadyList(s.w.g)| && status == Failed then {ReadyList(s.w.g)[k].id} else {})
  {
    hide *;
    BatchWork(s, s', env, pass, k, status);
    ProcessAllMarks(s.w, ReadyList(s.w.g)[..k], env.plans);
  }

  /** Of a batch the first node whose output asks for subgoals gets two children, if none were spawned in the
      workflow before, and recoveries are hung below those granted a retry while the budget lasts. */
  lemma {:induction false} BatchSpawns(s: State, s': State, env: Env, pass: nat, i: nat, r: Retry)
    requires Inv(s) && PassStep(s, s', env, pass) && GoesOn(s, env, pass) && i < |ReadyList(s.w.g)|
    ensures var ready, g := ReadyList(s.w.g), s'.w.g;
      && (ready[i].id + "-child-rt0" in g.nodes <==>
            s.w.spawned == 0 && Asks(ready[i], env.plans) && NoneAsks(ready[..i], env.plans))
      && (ready[i].id + "-child-rt0" in g.nodes ==> Child(g, ready[i].id + "-child-rt0", ready[i]))
      && (RetryName(ready[i].id, r) in g.nodes <==>
            env.plans(ready[i].id).retry == Some(r) && Granted(ready[..i], env.plans) < s.w.budget)
      && (RetryName(ready[i].id, r) in g.nodes ==> RetryOf(g, RetryName(ready[i].id, r), ready[i]))
  {
    var ready := ReadyList(s.w.g);
    PassRuns(s, s', env, pass);
    hide *;
    WentOnParts(s, env, pass);
    BatchWork(s, s', env, pass, |ready|, Completed);
    SettledRunning(s);
    SchedulerInvariant.ReadyProcessable(s, |s.batches|, |ready|);
    assert ready[..|ready|] == ready;
    ChildrenIff(s.w, ready, env.plans, |s.batches|, i);
    RecoveryIff(s.w, ready, env.plans, |s.batches|, i, r);
  }

  lemma {:induction false} PassRuns(s: State, s': State, env: Env, pass: nat)
    requires PassStep(s, s', env, pass)
    ensures s.phase.Running?
  {
  }

  lemma {:induction false} WentOnParts(s: State, env: Env, pass: nat)
    requires GoesOn(s, env, pass)
    ensures env.safe(pass) && ReadyList(s.w.g) != [] && NoGate(ReadyList(s.w.g))
    ensures AllComplete(ReadyList(s.w.g), env.steps)
  {
  }

  ghost predicate GoesOn(s: State, env: Env, pass: nat) {
    var ready := ReadyList(s.w.g);
    env.safe(pass) && ready != [] && NoGate(ready) && AllComplete(ready, env.steps)
  }

  // ---------------------------------------------------------------- whole calls

  /** Pass i of a call, the state before it and the state after it. */
  lemma {:induction false} PassAt(run: seq<State>, first: nat, env: Env, i: nat)
    requires Passes(run, first, env) && first <= i < |run| - 1
    ensures PassStep(run[i], run[i + 1], env, i - first)
    ensures run[i].phase.Running?
  {
    hide PassStep;
    assert PassStep(run[i], run[i + 1], env, i - first);
    PassRuns(run[i], run[i + 1], env, i - first);
  }

  /** A call stops in the first pass that cannot go on, and how it stops is decided there. */
  lemma {:induction false} OutcomeDecided(run: seq<State>, first: nat, env: Env, status: Status)
    requires Passes(run, first, env) && |run| >= first + 2 && !run[|run| - 1].phase.Running?
    ensures forall i | first <= i < |run| - 2 :: GoesOn(run[i], env, i - first)
    ensures var s, s', pass := run[|run| - 2], run[|run| - 1], |run| - 2 - first;
      && !GoesOn(s, env, pass)
      && (s'.phase.Waiting? <==> env.safe(pass) && !NoGate(ReadyList(s.w.g)))
      && (s'.phase == Finished(status) <==>
            || (!env.safe(pass) && status == Failed)
            || (env.safe(pass) && ReadyList(s.w.g) == [] && status == Completed)
            || (env.safe(pass) && NoGate(ReadyList(s.w.g))
                && exists i :: BreaksAt(ReadyList(s.w.g), env.steps, i, status)))
  {
    hide *;
    var last := |run| - 2;
    forall i | first <= i < last ensures GoesOn(run[i], env, i - first) {
      PassAt(run, first, env, i);
      PassAt(run, first, env, i + 1);
      WentOn(run[i], run[i + 1], env, i - first);
    }
    PassAt(run, first, env, last);
    WentOn(run[last], run[last + 1], env, last - first);
    PausesIff(run[last], run[last + 1], env, last - first, 0);
    EndsIff(run[last], run[last + 1], env, last - first, status);
  }

  lemma {:induction false} WentOn(s: State, s': State, env: Env, pass: nat)
    requires PassStep(s, s', env, pass)
    ensures GoesOn(s, env, pass) <==> s'.phase.Running?
  {
    GoesOnIff(s, s', env, pass);
    hide ReadyList, NoGate, AllComplete, PassStep;
  }

  /** A call fails only when the guard refuses a pass or some node's step fails, and is cancelled only when
      some node's step is. */
  lemma {:induction false} EndsForAReason(run: seq<State>, first: nat, env: Env)
    requires IsRun(run) && Passes(run, first, env) && |run| >= first + 2
    ensures run[|run| - 1].phase == Finished(Failed) ==>
              || !env.safe(|run| - 2 - first)
              || exists n :: n in run[|run| - 2].w.g.nodes && EndsWith(env.steps, n, Failed)
    ensures run[|run| - 1].phase == Finished(Cancelled) ==>
              exists n :: n in run[|run| - 2].w.g.nodes && EndsWith(env.steps, n, Cancelled)
  {
    hide *;
    if run[|run| - 1].phase == Finished(Failed) { EndsFor(run, first, env, Failed); }
    if run[|run| - 1].phase == Finished(Cancelled) { EndsFor(run, first, env, Cancelled); }
  }

  lemma {:induction false} EndsFor(run: seq<State>, first: nat, env: Env, status: Status)
    requires IsRun(run) && Passes(run, first, env) && |run| >= first + 2
    requires run[|run| - 1].phase == Finished(status) && status != Completed
    ensures (status == Failed && !env.safe(|run| - 2 - first))
         || exists n :: n in run[|run| - 2].w.g.nodes && EndsWith(env.steps, n, status)
  {
    hide *;
    var s, pass := run[|run| - 2], |run| - 2 - first;
    PassAt(run, first, env, |run| - 2);
    EndsIff(s, run[|run| - 1], env, pass, status);
    if !(status == Failed && !env.safe(pass)) {
      var i: nat :| BreaksAt(ReadyList(s.w.g), env.steps, i, status);
      var n := BreakerIsNode(run, |run| - 2, env.steps, i, status);
    }
  }

  lemma {:induction false} BreakerIsNode(run: seq<State>, j: nat, steps: Steps, i: nat, status: Status) returns (n: Id)
    requires IsRun(run) && j < |run| && run[j].phase.Running?
    requires BreaksAt(ReadyList(run[j].w.g), steps, i, status)
    ensures n in run[j].w.g.nodes && EndsWith(steps, n, status)
  {
    hide IsRun, Inv, ReadyList, EndsWith, Settled, WorkOk;
    RunInv(run, j);
    SettledRunning(run[j]);
    ReadyIsRound(run[j], |run[j].batches|);
    n := ReadyList(run[j].w.g)[i].id;
    assert ReadyList(run[j].w.g)[i] in ReadyList(run[j].w.g);
  }

  /** When the guard permits every pass and every step completes, a call on an acyclic, closed graph runs
      everything: it ends completed with each node once in its history, unless it pauses at a gate; and
      without gates it never pauses. */
  lemma {:induction false} AllGoesWell(run: seq<State>, first: nat, env: Env)
    requires IsRun(run) && Passes(run, first, env) && |run| >= first + 2 && !run[|run| - 1].phase.Running?
    requires Sound(Deps(run[0].w.g))
    requires (forall pass: nat :: env.safe(pass)) && (forall n :: EndsWith(env.steps, n, Completed))
    ensures var s := run[|run| - 1];
      && (s.phase == Finished(Completed) || s.phase.Waiting?)
      && (s.phase == Finished(Completed) ==>
            NoDup(History(s)) && SetOf(History(s)) == s.w.g.nodes.Keys && run[0].w.g.nodes.Keys <= s.w.g.nodes.Keys)
      && ((forall n | n in run[first].w.g.nodes :: !run[first].w.g.nodes[n].Approval()) ==>
            s.phase == Finished(Completed))
  {
    hide *;
    var s := run[|run| - 1];
    NothingBreaks(run, first, env);
    if s.phase == Finished(Completed) {
      EveryNodeOnce(run, |run| - 1);
      RunKeeps(run, 0, |run| - 1);
      KeptNodes(run[0], s);
    }
    if s.phase.Waiting? {
      GateAtPause(run, |run| - 1);
      RunKeeps(run, first, |run| - 1);
      KeptGate(run[first], s, s.phase.gate);
    }
  }

  lemma {:induction false} NothingBreaks(run: seq<State>, first: nat, env: Env)
    requires IsRun(run) && Passes(run, first, env) && |run| >= first + 2 && !run[|run| - 1].phase.Running?
    requires (forall pass: nat :: env.safe(pass)) && (forall n :: EndsWith(env.steps, n, Completed))
    ensures run[|run| - 1].phase == Finished(Completed) || run[|run| - 1].phase.Waiting?
  {
    hide *;
    var s := run[|run| - 1];
    EndsForAReason(run, first, env);
    forall n, status | EndsWith(env.steps, n, status) ensures status == Completed {
      EndsOneWay(env.steps, n, status, Completed);
    }
    match s.phase
    case Finished(Failed) => assert false;
    case Finished(Cancelled) => assert false;
    case _ =>
  }

  lemma {:induction false} KeptNodes(s: State, s': State)
    requires GraphKept(s, s')
    ensures s.w.g.nodes.Keys <= s'.w.g.nodes.Keys
  {
  }

  lemma {:induction false} KeptGate(s: State, s': State, gate: Id)
    requires GraphKept(s, s') && gate in s'.w.g.nodes && s'.w.g.nodes[gate].Approval()
    ensures gate in s.w.g.nodes && s.w.g.nodes[gate].Approval()
  {
  }

  lemma {:induction false} GateAtPause(run: seq<State>, i: nat)
    requires IsRun(run) && i < |run| && run[i].phase.Waiting?
    ensures run[i].phase.gate in run[i].w.g.nodes && run[i].w.g.nodes[run[i].phase.gate].Approval()
  {
    hide IsRun, WorkOk, NamesOk, BatchesAreRounds, GatesGranted, TailOk, Layer, Deps;
    RunInv(run, i);
  }
}
