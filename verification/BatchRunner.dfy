/** `ParallelRuntime.execute_ready_batch`: one batch of ready nodes, in turn or side by side. */
module BatchRunner {
  import opened Layering
  import opened Sequences
  import opened GraphModel
  import opened AdaptiveGraph
  import opened Scheduler

  /** What `execute_step` does for one node: return a status or raise. */
  datatype StepOutcome = Returned(status: Status) | Raised

  /** The effects outside the model, as functions of the node: whether cancellation has been
      requested when the node's turn comes, and how its step ends. */
  datatype Steps = Steps(cancelled: Id -> bool, outcome: Id -> StepOutcome) {
    predicate Raises(n: Id) {
      !cancelled(n) && outcome(n).Raised?
    }

    function StatusOf(n: Id): Status
      requires !Raises(n)
    {
      if cancelled(n) then Cancelled else outcome(n).status
    }
  }

  datatype BatchResult = Results(results: seq<(Node, Status)>) | Propagated

  function Statuses(rs: seq<(Node, Status)>): seq<Status> {
    seq(|rs|, i requires 0 <= i < |rs| => rs[i].1)
  }

  /** What the sequential branch returns: its own step's status for each node of a front part of the batch,
      up to the first that does not complete; or nothing, when a step after completed ones raised. */
  ghost predicate InTurn(ready: seq<Node>, steps: Steps, r: BatchResult) {
    match r
    case Propagated =>
      exists k :: 0 <= k < |ready| && steps.Raises(ready[k].id)
                  && forall i | 0 <= i < k :: !steps.Raises(ready[i].id) && steps.StatusOf(ready[i].id) == Completed
    case Results(results) =>
      && |results| <= |ready|
      && (forall i | 0 <= i < |results| ::
            results[i].0 == ready[i] && !steps.Raises(ready[i].id) && results[i].1 == steps.StatusOf(ready[i].id))
      && (forall i | 0 <= i < |results| - 1 :: results[i].1 == Completed)
      && (ready != [] ==> results != [] && (results[|results| - 1].1 == Completed ==> |results| == |ready|))
  }

  /** How the step of a node ends when it does not raise: cancelled beforehand, or with the status it returns. */
  ghost predicate EndsWith(steps: Steps, n: Id, status: Status) {
    if steps.cancelled(n) then status == Cancelled else steps.outcome(n) == Returned(status)
  }

  /** No member of the batch lists another among its dependencies, and there are two or more. */
  ghost predicate Unrelated(d: DepMap, ids: seq<Id>) {
    |ids| > 1 && forall k, l | 0 <= k < |ids| && 0 <= l < |ids| && k != l && ids[k] in d :: ids[l] !in d[ids[k]]
  }

  /** What a batch returns and executes when no step raises: the statuses of the steps themselves, all of them
      side by side, in turn only up to the first that is not completed.  A step runs unless it was cancelled. */
  ghost predicate StepsRan(d: DepMap, ids: seq<Id>, parallelEnabled: bool, steps: Steps,
                           results: seq<Status>, executed: seq<Id>) {
    && |results| <= |ids| && (forall i | 0 <= i < |results| :: EndsWith(steps, ids[i], results[i]))
    && (parallelEnabled && Unrelated(d, ids) ==> |results| == |ids|)
    && (!(parallelEnabled && Unrelated(d, ids)) ==>
          && (forall i | 0 <= i < |results| - 1 :: results[i] == Completed)
          && (ids != [] ==> results != [])
          && (results != [] && results[|results| - 1] == Completed ==> |results| == |ids|))
    && (forall n :: n in executed <==> n in ids[..|results|] && !steps.cancelled(n))
  }

  /** The sequential branch: stops after the first status other than completed; an exception
      leaves the whole loop. */
  method RunSequentially(ready: seq<Node>, steps: Steps) returns (r: BatchResult, ghost executed: seq<Id>)
    ensures InTurn(ready, steps, r)
    ensures r.Results? && ready != [] ==> RanInTurn(Ids(ready), Statuses(r.results), executed)
    ensures r.Results? && |r.results| <= |ready| ==>
              forall n :: n in executed <==> n in Ids(ready)[..|r.results|] && !steps.cancelled(n)
  {
    var results: seq<(Node, Status)> := [];
    executed := [];
    for i := 0 to |ready|
      invariant |results| == i && executed == Ids(ready)[..i]
      invariant forall j | 0 <= j < i ::
        && results[j].0 == ready[j] && !steps.Raises(ready[j].id)
        && results[j].1 == steps.StatusOf(ready[j].id) == Completed
    {
      var id := ready[i].id;
      assert Ids(ready)[..i + 1] == Ids(ready)[..i] + [id];
      if steps.cancelled(id) {
        results := results + [(ready[i], Cancelled)];
        OneMore(Ids(ready), i);
        return Results(results), executed;
      }
      executed := executed + [id];
      if steps.outcome(id).Raised? {
        return Propagated, executed;
      }
      results := results + [(ready[i], steps.outcome(id).status)];
      if steps.outcome(id).status != Completed {
        return Results(results), executed;
      }
    }
    r := Results(results);
  }

  lemma OneMore(ids: seq<Id>, i: nat)
    requires i < |ids|
    ensures forall n :: n in ids[..i + 1] <==> n in ids[..i] || n == ids[i]
  {
    assert ids[..i + 1] == ids[..i] + [ids[i]];
  }

  /** The gathered results of the parallel branch, in the order of the batch, without the steps that raised. */
  function Gathered(ready: seq<Node>, steps: Steps): seq<(Node, Status)> {
    if ready == [] then []
    else
      var n := ready[|ready| - 1];
      Gathered(ready[..|ready| - 1], steps) + (if steps.Raises(n.id) then [] else [(n, steps.StatusOf(n.id))])
  }

  /** The parallel branch.  Steps execute one by one under the step lock, in an order the event loop
      chooses; the results come back in the order of the batch. */
  method RunTogether(ready: seq<Node>, steps: Steps) returns (r: seq<(Node, Status)>, ghost executed: seq<Id>)
    requires NoDup(Ids(ready))
    ensures r == Gathered(ready, steps)
    ensures NoDup(executed)
    ensures forall id :: id in executed <==> id in Ids(ready) && !steps.cancelled(id)
  {
    executed := [];
    ghost var waiting := SetOf(Ids(ready));
    while waiting != {}
      invariant waiting <= SetOf(Ids(ready)) && NoDup(executed)
      invariant forall id :: id in executed <==> id in SetOf(Ids(ready)) - waiting && !steps.cancelled(id)
      decreases waiting
    {
      ghost var id :| id in waiting;
      waiting := waiting - {id};
      if !steps.cancelled(id) { executed := executed + [id]; }
    }
    r := [];
    for i := 0 to |ready|
      invariant r == Gathered(ready[..i], steps)
    {
      assert ready[..i + 1][..i] == ready[..i];
      var id := ready[i].id;
      if steps.cancelled(id) {
        r := r + [(ready[i], Cancelled)];
      } else if steps.outcome(id).Returned? {
        r := r + [(ready[i], steps.outcome(id).status)];
      }
    }
    assert ready[..|ready|] == ready;
  }

  lemma {:induction false} GatheredAll(ready: seq<Node>, steps: Steps)
    requires forall n | n in ready :: !steps.Raises(n.id)
    ensures |Gathered(ready, steps)| == |ready|
    ensures forall i | 0 <= i < |ready| :: Gathered(ready, steps)[i] == (ready[i], steps.StatusOf(ready[i].id))
  {
    if ready != [] {
      var front := ready[..|ready| - 1];
      assert forall n | n in front :: n in ready;
      GatheredAll(front, steps);
      assert ready[|ready| - 1] in ready;
    }
  }

  lemma {:induction false} GatheredMembers(ready: seq<Node>, steps: Steps, n: Node)
    ensures (exists st :: (n, st) in Gathered(ready, steps)) <==> n in ready && !steps.Raises(n.id)
  {
    if ready != [] {
      var front, last := ready[..|ready| - 1], ready[|ready| - 1];
      GatheredMembers(front, steps, n);
      assert ready == front + [last];
      var tail := if steps.Raises(last.id) then [] else [(last, steps.StatusOf(last.id))];
      assert Gathered(ready, steps) == Gathered(front, steps) + tail;
      forall st ensures (n, st) in Gathered(ready, steps) <==> (n, st) in Gathered(front, steps) || (n, st) in tail {
      }
      if last == n && !steps.Raises(n.id) {
        assert (n, steps.StatusOf(n.id)) in tail;
      }
    }
  }

  /** A batch run side by side has no results exactly when all its steps raise; a pass with no results changes
      nothing, so the next one finds the same batch. */
  lemma {:induction false} NoResultsIff(ready: seq<Node>, steps: Steps)
    ensures Gathered(ready, steps) == [] <==> forall n | n in ready :: steps.Raises(n.id)
  {
    hide Gathered;
    if Gathered(ready, steps) == [] {
      forall n | n in ready ensures steps.Raises(n.id) { GatheredMembers(ready, steps, n); }
    } else {
      var p := Gathered(ready, steps)[0];
      assert (p.0, p.1) in Gathered(ready, steps);
      GatheredMembers(ready, steps, p.0);
    }
  }

  /** A step that raises in a parallel batch gets no result, so a caller that marks the nodes it got
      completed results for finds the node ready again, and only such nodes of the batch. */
  lemma RaisedStepsRunAgain(d: DepMap, done: set<Id>, ready: seq<Node>, steps: Steps, n: Node)
    requires n in ready && (forall m | m in ready :: m.id in Ready(d, done))
    requires forall m, m' | m in ready && m' in ready && m.id == m'.id :: m == m'
    requires forall m | m in ready && !steps.Raises(m.id) :: steps.StatusOf(m.id) == Completed
    ensures var marked := done + (set p | p in Gathered(ready, steps) :: p.0.id);
      n.id in Ready(d, marked) <==> steps.Raises(n.id)
  {
    var gathered := Gathered(ready, steps);
    var got := set p | p in gathered :: p.0.id;
    GatheredMembers(ready, steps, n);
    if steps.Raises(n.id) {
      if n.id in got {
        var p :| p in gathered && p.0.id == n.id;
        assert (p.0, p.1) in gathered;
        GatheredMembers(ready, steps, p.0);
        assert false;
      }
    } else {
      var st :| (n, st) in gathered;
      assert (n, st).0.id in got;
    }
  }

  /** Side by side exactly when the mode allows it and the batch has two or more nodes without a direct
      dependency; in turn otherwise. */
  method ExecuteReadyBatch(graph: AdaptiveExecutionGraph, ready: seq<Node>, parallelEnabled: bool, steps: Steps)
    returns (r: BatchResult, ghost executed: seq<Id>)
    requires graph.Consistent() && NoDup(Ids(ready))
    ensures ready == [] ==> r == Results([])
    ensures if parallelEnabled && Independent(Deps(graph.View()), Ids(ready)) then r == Results(Gathered(ready, steps))
            else InTurn(ready, steps, r)
    ensures ready != [] && (forall n | n in ready :: !steps.Raises(n.id)) ==>
              && r.Results? && BatchRan(Ids(ready), Statuses(r.results), executed)
              && |r.results| <= |ready| && forall i | 0 <= i < |r.results| :: r.results[i].0 == ready[i]
    ensures (forall n | n in ready :: !steps.Raises(n.id)) ==>
              && r.Results?
              && StepsRan(Deps(graph.View()), Ids(ready), parallelEnabled, steps, Statuses(r.results), executed)
  {
    hide RanInTurn, RanTogether, StepsRan, Unrelated, Deps;
    if |ready| == 0 {
      NothingRan(Deps(graph.View()), parallelEnabled, steps);
      return Results([]), [];
    }
    var ids := Ids(ready);
    var independent := graph.CanParallelize(ids);
    IndependentIsUnrelated(Deps(graph.View()), ids);
    var useParallel := parallelEnabled && |ready| > 1 && independent;
    if !useParallel {
      r, executed := RunSequentially(ready, steps);
      if r.Propagated? {
        ghost var k :| 0 <= k < |ready| && steps.Raises(ready[k].id);
        assert ready[k] in ready;
      } else {
        InTurnRan(Deps(graph.View()), ready, parallelEnabled, steps, r.results, executed);
      }
    } else {
      var results;
      results, executed := RunTogether(ready, steps);
      r := Results(results);
      if forall n | n in ready :: !steps.Raises(n.id) {
        GatheredAll(ready, steps);
        TogetherRan(ready, steps, executed);
        AllRan(Deps(graph.View()), ready, parallelEnabled, steps, executed);
      }
    }
  }

  lemma TogetherRan(ready: seq<Node>, steps: Steps, executed: seq<Id>)
    requires |ready| > 1 && NoDup(Ids(ready)) && NoDup(executed)
    requires forall n | n in ready :: !steps.Raises(n.id)
    requires forall id :: id in executed <==> id in Ids(ready) && !steps.cancelled(id)
    ensures RanTogether(Ids(ready), Statuses(Gathered(ready, steps)), executed)
  {
    GatheredAll(ready, steps);
    forall i | 0 <= i < |ready| ensures Ids(ready)[i] in Ids(ready) {
    }
  }

  lemma NothingRan(d: DepMap, parallelEnabled: bool, steps: Steps)
    ensures StepsRan(d, Ids([]), parallelEnabled, steps, Statuses([]), [])
  {
  }

  lemma IndependentIsUnrelated(d: DepMap, ids: seq<Id>)
    ensures Independent(d, ids) <==> Unrelated(d, ids)
  {
    if Unrelated(d, ids) {
      forall k, l | 0 <= k < l < |ids| ensures NoDirectDependency(d, ids[k], ids[l]) {
      }
    }
    if Independent(d, ids) {
      forall k, l | 0 <= k < |ids| && 0 <= l < |ids| && k != l && ids[k] in d ensures ids[l] !in d[ids[k]] {
        assert NoDirectDependency(d, ids[if k < l then k else l], ids[if k < l then l else k]);
      }
    }
  }

  lemma InTurnRan(d: DepMap, ready: seq<Node>, parallelEnabled: bool, steps: Steps,
                  results: seq<(Node, Status)>, executed: seq<Id>)
    requires InTurn(ready, steps, Results(results)) && !(parallelEnabled && Unrelated(d, Ids(ready)))
    requires forall n :: n in executed <==> n in Ids(ready)[..|results|] && !steps.cancelled(n)
    ensures StepsRan(d, Ids(ready), parallelEnabled, steps, Statuses(results), executed)
  {
    hide Unrelated;
  }

  lemma AllRan(d: DepMap, ready: seq<Node>, parallelEnabled: bool, steps: Steps, executed: seq<Id>)
    requires parallelEnabled && Unrelated(d, Ids(ready)) && forall n | n in ready :: !steps.Raises(n.id)
    requires forall n :: n in executed <==> n in Ids(ready) && !steps.cancelled(n)
    ensures StepsRan(d, Ids(ready), parallelEnabled, steps, Statuses(Gathered(ready, steps)), executed)
  {
    hide Unrelated;
    GatheredAll(ready, steps);
    hide Gathered;
    assert Ids(ready)[..|ready|] == Ids(ready);
    forall i | 0 <= i < |ready| ensures !steps.Raises(ready[i].id) { assert ready[i] in ready; }
  }
}
