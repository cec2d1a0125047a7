/** What every interleaving of the execution manager keeps. */
module ManagerTheorems {
  import opened ManagerModel
  import opened Wrappers

  lemma RegistryNames(s: State)
    requires Inv(s)
    ensures RegistryOk(s)
  {
    forall e | e in s.registry ensures s.registry[e] in s.tasks {
      assert EidOk(s, e);
    }
  }

  /** Changing one live task that keeps its id, while locks, owners and registry stay. */
  lemma TouchTask(s: State, s': State, t: TaskId, k: Task)
    requires Inv(s) && t in s.tasks && s' == s.(tasks := s.tasks[t := k])
    requires k.eid == s.tasks[t].eid && k.owner == s.tasks[t].owner && TaskOk(s', t)
    requires k.phase == Dead(Clean) ==> s.tasks[t].phase == Dead(Clean)
    requires k.phase.NeedsLock() || Leaked(k.phase) <==> s.tasks[t].phase.NeedsLock() || Leaked(s.tasks[t].phase)
    requires Leaked(s.tasks[t].phase) ==> Leaked(k.phase)
    ensures Inv(s')
  {
    forall u | u in s'.tasks ensures TaskOk(s', u) {
      if u != t { assert TaskOk(s, u); }
    }
    forall e ensures EidOk(s', e) {
      assert EidOk(s, e);
    }
  }

  // ---------------------------------------------------------------- every step keeps the invariant

  lemma EnrolInv(s: State, e: Eid, owner: Owner, t: TaskId)
    requires Inv(s) && t !in s.tasks && RegistryOk(s) && !Alive(s, e) && !Held(s, e) && s.blocked.None?
    ensures Inv(Enrol(s.(locks := WithLock(s, e)), e, owner, t))
  {
    var s' := Enrol(s.(locks := WithLock(s, e)), e, owner, t);
    forall u | u in s'.tasks ensures TaskOk(s', u) {
      if u != t { assert TaskOk(s, u); }
    }
    forall f ensures EidOk(s', f) {
      assert EidOk(s, f);
    }
  }

  lemma SuspendInv(s: State, e: Eid, owner: Owner)
    requires Inv(s) && RegistryOk(s) && !Alive(s, e) && Held(s, e) && s.blocked.None?
    ensures Inv(s.(blocked := Some((e, owner))))
  {
    var s' := s.(blocked := Some((e, owner)));
    assert EidOk(s, e);
    forall u | u in s'.tasks ensures TaskOk(s', u) { assert TaskOk(s, u); }
    forall f ensures EidOk(s', f) { assert EidOk(s, f); }
  }

  lemma RegisterInv(s: State, s': State, e: Eid, owner: Owner, t: TaskId)
    requires Inv(s) && RegisterStep(s, s', e, owner, t)
    ensures Inv(s')
  {
    hide Inv, Enrol;
    if !Alive(s, e) {
      if Held(s, e) {
        if !(e in s.owners && s.owners[e] == owner) { SuspendInv(s, e, owner); }
      } else {
        EnrolInv(s, e, owner, t);
      }
    }
  }

  lemma ReleaseInv(s: State, s': State, t: TaskId)
    requires Inv(s) && ReleaseStep(s, s', t)
    ensures Inv(s')
  {
    assert TaskOk(s, t);
    forall u | u in s'.tasks ensures TaskOk(s', u) { assert TaskOk(s, u); }
    forall f ensures EidOk(s', f) { assert EidOk(s, f); }
    if s.blocked.Some? { assert EidOk(s, s.blocked.value.0); }
  }

  lemma PopInv(s: State, s': State, t: TaskId)
    requires Inv(s) && PopStep(s, s', t)
    ensures Inv(s')
  {
    assert TaskOk(s, t);
    forall u | u in s'.tasks ensures TaskOk(s', u) { assert TaskOk(s, u); }
    forall f ensures EidOk(s', f) { assert EidOk(s, f); }
  }

  lemma TouchInv(s: State, s': State, t: TaskId)
    requires Inv(s)
    requires StartStep(s, s', t) || (exists result :: FinishStep(s, s', t, result)) || EventsStep(s, s', t)
        || InterruptStep(s, s', t)
    ensures Inv(s')
  {
    assert TaskOk(s, t);
    TouchTask(s, s', t, s'.tasks[t]);
  }

  /** A suspended registration is never woken: the lock it waits for is never free. */
  lemma NeverWoken(s: State, s': State, t: TaskId)
    requires Inv(s)
    ensures !WakeStep(s, s', t)
  {
    if s.blocked.Some? { assert EidOk(s, s.blocked.value.0); }
  }

  lemma CancelMarkInv(s: State, s': State, e: Eid)
    requires Inv(s) && CancelMarkStep(s, s', e)
    ensures Inv(s')
  {
    var t := s.registry[e];
    assert TaskOk(s, t) && EidOk(s, e);
    TouchTask(s, s.(tasks := s'.tasks), t, s'.tasks[t]);
    InflightFree(s.(tasks := s'.tasks), s'.inflight);
  }

  lemma CancelSendInv(s: State, s': State, e: Eid)
    requires Inv(s) && CancelSendStep(s, s', e)
    ensures Inv(s')
  {
    if Alive(s, e) {
      var t := s.registry[e];
      assert TaskOk(s, t) && EidOk(s, e);
      TouchTask(s, s.(tasks := s'.tasks), t, s'.tasks[t]);
      InflightFree(s.(tasks := s'.tasks), s'.inflight);
    } else {
      InflightFree(s, s'.inflight);
    }
  }

  lemma InflightFree(s: State, inflight: multiset<Eid>)
    requires Inv(s)
    ensures Inv(s.(inflight := inflight))
  {
    var s' := s.(inflight := inflight);
    forall u | u in s'.tasks ensures TaskOk(s', u) { assert TaskOk(s, u); }
    forall f ensures EidOk(s', f) { assert EidOk(s, f); }
  }

  lemma TaskInv(s: State, s': State, t: TaskId)
    requires Inv(s) && TaskStep(s, s', t)
    ensures Inv(s')
  {
    hide Inv, WakeStep, StartStep, FinishStep, EventsStep, InterruptStep, ReleaseStep, PopStep;
    NeverWoken(s, s', t);
    if ReleaseStep(s, s', t) {
      ReleaseInv(s, s', t);
    } else if PopStep(s, s', t) {
      PopInv(s, s', t);
    } else {
      TouchInv(s, s', t);
    }
  }

  lemma CallInv(s: State, s': State, e: Eid)
    requires Inv(s) && CallStep(s, s', e)
    ensures Inv(s')
  {
    hide Inv, RegisterStep, CancelMarkStep, CancelSendStep;
    if CancelMarkStep(s, s', e) {
      CancelMarkInv(s, s', e);
    } else if CancelSendStep(s, s', e) {
      CancelSendInv(s, s', e);
    } else {
      var owner, t :| RegisterStep(s, s', e, owner, t);
      RegisterInv(s, s', e, owner, t);
    }
  }

  lemma NextInv(s: State, s': State)
    requires Inv(s) && Next(s, s')
    ensures Inv(s')
  {
    hide Inv, TaskStep, CallStep;
    if exists t :: TaskStep(s, s', t) {
      var t :| TaskStep(s, s', t);
      TaskInv(s, s', t);
    } else {
      var e :| CallStep(s, s', e);
      CallInv(s, s', e);
    }
  }

  lemma {:induction false} RunInv(ss: seq<State>, i: nat)
    requires IsRun(ss) && i < |ss|
    ensures Inv(ss[i])
  {
    if i > 0 {
      hide Inv, Next;
      RunInv(ss, i - 1);
      NextInv(ss[i - 1], ss[i]);
    }
  }

  // ---------------------------------------------------------------- what holds at every moment

  /** An execution id has at most one live task, and it is the registered one. */
  lemma OneLiveTask(ss: seq<State>, i: nat, t: TaskId, u: TaskId)
    requires IsRun(ss) && i < |ss|
    requires t in ss[i].tasks && !ss[i].tasks[t].phase.Dead?
    requires u in ss[i].tasks && !ss[i].tasks[u].phase.Dead? && ss[i].tasks[u].eid == ss[i].tasks[t].eid
    ensures t == u
    ensures ss[i].tasks[t].eid in ss[i].registry && ss[i].registry[ss[i].tasks[t].eid] == t
  {
    RunInv(ss, i);
    assert TaskOk(ss[i], t) && TaskOk(ss[i], u);
  }

  /** While a body runs, its id's lock is held in its owner's name. */
  lemma LockHeldWhileRunning(ss: seq<State>, i: nat, t: TaskId)
    requires IsRun(ss) && i < |ss|
    requires t in ss[i].tasks && ss[i].tasks[t].phase.Body?
    ensures Held(ss[i], ss[i].tasks[t].eid)
    ensures ss[i].tasks[t].eid in ss[i].owners && ss[i].owners[ss[i].tasks[t].eid] == ss[i].tasks[t].owner
  {
    RunInv(ss, i);
    assert TaskOk(ss[i], t);
  }

  /** What `register` does, decided by the state of the id alone: it is a duplicate while a live task
      is registered, it succeeds otherwise, except that an id whose last task was cancelled before
      its first step is refused or, to another owner, never answered. */
  lemma RegisterOutcome(ss: seq<State>, i: nat, e: Eid, owner: Owner, t: TaskId)
    requires IsRun(ss) && i < |ss|
    ensures RegistryOk(ss[i])
    ensures var s, r := ss[i], Register(ss[i], e, owner, t).1;
            var leaked := e in s.registry && Leaked(s.tasks[s.registry[e]].phase);
      && (r == Duplicate <==> Alive(s, e))
      && (r == Registered(t) <==> !Alive(s, e) && !leaked)
      && (r == Refused <==> leaked && e in s.owners && s.owners[e] == owner)
      && (r == Registration.Waits <==> leaked && !(e in s.owners && s.owners[e] == owner))
  {
    RunInv(ss, i);
    RegistryNames(ss[i]);
    assert EidOk(ss[i], e);
  }

  // ---------------------------------------------------------------- what never changes back

  /** From one state to a later one: tasks keep their ids, a terminal status is never left, a set
      cancel event stays set, and a leaked lock stays leaked. */
  ghost predicate Later(s: State, s': State) {
    && (forall t | t in s.tasks :: t in s'.tasks && s'.tasks[t].eid == s.tasks[t].eid)
    && (forall t | t in s.tasks && s.tasks[t].status.Terminal() :: s'.tasks[t].status == s.tasks[t].status)
    && (forall t | t in s.tasks && s.tasks[t].cancelEvent :: s'.tasks[t].cancelEvent)
    && (forall t | t in s.tasks && s.tasks[t].phase.Dead? :: s'.tasks[t].phase == s.tasks[t].phase)
    && (forall e | e in s.registry && s.registry[e] in s.tasks && Leaked(s.tasks[s.registry[e]].phase) ::
          e in s'.registry && s'.registry[e] == s.registry[e])
    && (s.blocked.Some? ==> s'.blocked == s.blocked)
  }

  lemma TouchLater(s: State, s': State, t: TaskId)
    requires Inv(s) && t in s.tasks
    requires t in s'.tasks && s' == s.(tasks := s'.tasks) && s'.tasks == s.tasks[t := s'.tasks[t]]
    requires var k, k' := s.tasks[t], s'.tasks[t];
      && k'.eid == k.eid && (k.cancelEvent ==> k'.cancelEvent)
      && (k.status.Terminal() ==> k'.status == k.status) && (k.phase.Dead? ==> k'.phase == k.phase)
    ensures Later(s, s')
  {
  }

  lemma CleanupLater(s: State, s': State, t: TaskId)
    requires Inv(s) && (ReleaseStep(s, s', t) || PopStep(s, s', t))
    ensures Later(s, s')
  {
    assert TaskOk(s, t);
  }

  lemma TaskLater(s: State, s': State, t: TaskId)
    requires Inv(s) && TaskStep(s, s', t)
    ensures Later(s, s')
  {
    hide Later, WakeStep, ReleaseStep, PopStep;
    NeverWoken(s, s', t);
    if ReleaseStep(s, s', t) || PopStep(s, s', t) {
      CleanupLater(s, s', t);
    } else {
      assert TaskOk(s, t);
      TouchLater(s, s', t);
    }
  }

  lemma RegisterLater(s: State, s': State, e: Eid, owner: Owner, t: TaskId)
    requires Inv(s) && RegisterStep(s, s', e, owner, t)
    ensures Later(s, s')
  {
    hide TaskOk;
    assert EidOk(s, e);
  }

  lemma CancelLater(s: State, s': State, e: Eid)
    requires Inv(s) && (CancelMarkStep(s, s', e) || CancelSendStep(s, s', e))
    ensures Later(s, s')
  {
    assert EidOk(s, e);
  }

  lemma NextLater(s: State, s': State)
    requires Inv(s) && Next(s, s')
    ensures Later(s, s')
  {
    hide Inv, TaskStep, RegisterStep, CancelMarkStep, CancelSendStep, Later;
    if exists t :: TaskStep(s, s', t) {
      var t :| TaskStep(s, s', t);
      TaskLater(s, s', t);
    } else {
      var e :| CallStep(s, s', e);
      if CancelMarkStep(s, s', e) || CancelSendStep(s, s', e) {
        CancelLater(s, s', e);
      } else {
        var owner, t :| RegisterStep(s, s', e, owner, t);
        RegisterLater(s, s', e, owner, t);
      }
    }
  }

  lemma LaterTrans(s: State, s': State, s'': State)
    requires Later(s, s') && Later(s', s'')
    ensures Later(s, s'')
  {
  }

  lemma LaterRefl(s: State)
    ensures Later(s, s)
  {
  }

  lemma StepAt(ss: seq<State>, i: nat)
    requires IsRun(ss) && i + 1 < |ss|
    ensures Next(ss[i], ss[i + 1])
  {
    hide Next;
  }

  /** Over every run: no status is revived, no cancel event cleared, no leaked lock ever freed, and a
      suspended registration keeps the manager's lock for good. */
  lemma {:induction false} RunLater(ss: seq<State>, i: nat, j: nat)
    requires IsRun(ss) && i <= j < |ss|
    ensures Later(ss[i], ss[j])
    decreases j
  {
    hide *;
    if i < j {
      RunLater(ss, i, j - 1);
      RunInv(ss, j - 1);
      StepAt(ss, j - 1);
      NextLater(ss[j - 1], ss[j]);
      LaterTrans(ss[i], ss[j - 1], ss[j]);
    } else {
      LaterRefl(ss[i]);
    }
  }

  // ---------------------------------------------------------------- the deadlock

  /** Once a task's cleanup has begun, no other step comes before its end, as in the code while nothing
      holds the manager's lock. */
  ghost predicate Undivided(ss: seq<State>) {
    forall i, j, t | 0 <= i < |ss| - 1 && j == i + 1 && t in ss[i].tasks && ss[i].tasks[t].phase.InCleanup() ::
      TaskStep(ss[i], ss[j], t)
  }

  ghost predicate Legal(ss: seq<State>) {
    IsRun(ss) && Undivided(ss)
  }

  lemma TaskNext(ss: seq<State>, s: State, s': State, t: TaskId)
    requires Legal(ss) && ss[|ss| - 1] == s && TaskStep(s, s', t)
    requires forall u | u in s.tasks && s.tasks[u].phase.InCleanup() :: u == t
    ensures Legal(ss + [s'])
  {
    hide TaskStep;
  }

  lemma CallNext(ss: seq<State>, s: State, s': State, e: Eid)
    requires Legal(ss) && ss[|ss| - 1] == s && CallStep(s, s', e)
    requires forall u | u in s.tasks :: !s.tasks[u].phase.InCleanup()
    ensures Legal(ss + [s'])
  {
    hide CallStep, TaskStep;
  }

  /** The state in which the lock of `e` is held and its one registered task, numbered t, stands in `k`. */
  function Holding(tasks: map<TaskId, Task>, t: TaskId, k: Task, inflight: multiset<Eid>): State {
    State(tasks[t := k], map[k.eid := t], map[k.eid := true], map[k.eid := k.owner], inflight, None)
  }

  lemma StartTask(e: Eid, a: Owner) returns (ss: seq<State>)
    ensures Legal(ss) && ss[|ss| - 1] == Holding(map[], 0, Task(e, a, Running, false, Body, false), multiset{})
  {
    hide Legal;
    var s1 := Holding(map[], 0, Task(e, a, Running, false, NotStarted, false), multiset{});
    var s2 := Holding(map[], 0, Task(e, a, Running, false, Body, false), multiset{});
    ss := [INITIAL];
    assert Legal(ss) by { OneState(); }
    assert RegisterStep(INITIAL, s1, e, a, 0);
    CallNext(ss, INITIAL, s1, e);
    ss := ss + [s1];
    assert StartStep(s1, s2, 0);
    TaskNext(ss, s1, s2, 0);
    ss := ss + [s2];
  }

  lemma OneState()
    ensures Legal([INITIAL])
  {
  }

  /** The stages of a cleanup, with no step in between. */
  lemma CleanUp(begun: seq<State>, e: Eid, t: TaskId, k: Task) returns (ss: seq<State>, d: Task)
    requires Legal(begun) && k.eid == e && k.phase == Disconnecting
    requires begun[|begun| - 1] == Holding(map[], t, k, multiset{e})
    ensures Legal(ss) && d.phase == Dead(Clean)
    ensures ss[|ss| - 1] == State(map[t := d], map[], map[], map[], multiset{e}, None)
  {
    hide Legal;
    var s4 := Holding(map[], t, k, multiset{e});
    var s5 := State(map[t := k.(phase := CleaningEvents)], map[e := t], map[], map[], multiset{e}, None);
    var s6 := s5.(tasks := map[t := k.(phase := AwaitingRegistry)]);
    d := k.(phase := Dead(Clean));
    var s7 := State(map[t := d], map[], map[], map[], multiset{e}, None);
    assert s4.locks - {e} == map[] && s4.owners - {e} == map[] && s6.registry - {e} == map[];
    assert ReleaseStep(s4, s5, t);
    TaskNext(begun, s4, s5, t);
    ss := begun + [s5];
    assert s5.tasks[t := k.(phase := AwaitingRegistry)] == s6.tasks;
    assert EventsStep(s5, s6, t);
    TaskNext(ss, s5, s6, t);
    ss := ss + [s6];
    assert s6.tasks[t := d] == s7.tasks;
    assert PopStep(s6, s7, t);
    TaskNext(ss, s6, s7, t);
    ss := ss + [s7];
  }

  /** The task finishes although a cancellation has been marked, and that cancellation is still on its way. */
  lemma FinishMarked(e: Eid, a: Owner) returns (ss: seq<State>, d: Task)
    ensures Legal(ss) && d.phase == Dead(Clean)
    ensures ss[|ss| - 1] == State(map[0 := d], map[], map[], map[], multiset{e}, None)
  {
    hide Legal;
    ss := StartTask(e, a);
    var k := Task(e, a, Cancelling, true, Body, false);
    var s2 := Holding(map[], 0, Task(e, a, Running, false, Body, false), multiset{});
    var s3 := Holding(map[], 0, k, multiset{e});
    var s4 := Holding(map[], 0, k.(phase := Disconnecting, status := Completed), multiset{e});
    assert CancelMarkStep(s2, s3, e);
    CallNext(ss, s2, s3, e);
    ss := ss + [s3];
    assert FinishStep(s3, s4, 0, Completed);
    TaskNext(ss, s3, s4, 0);
    ss, d := CleanUp(ss + [s4], e, 0, k.(phase := Disconnecting, status := Completed));
  }

  /** The id is registered again while that cancellation is on its way. */
  lemma RegisterAgain(e: Eid, a: Owner) returns (ss: seq<State>, d: Task)
    ensures Legal(ss) && d.phase == Dead(Clean)
    ensures ss[|ss| - 1] == Holding(map[0 := d], 1, Task(e, a, Running, false, NotStarted, false), multiset{e})
  {
    hide Legal;
    ss, d := FinishMarked(e, a);
    var s7 := State(map[0 := d], map[], map[], map[], multiset{e}, None);
    var s8 := Holding(map[0 := d], 1, Task(e, a, Running, false, NotStarted, false), multiset{e});
    assert RegisterStep(s7, s8, e, a, 1);
    CallNext(ss, s7, s8, e);
    ss := ss + [s8];
  }

  /** The cancellation, meant for the finished task, reaches the next one before its first step. */
  lemma StaleCancel(e: Eid, a: Owner) returns (ss: seq<State>, s: State)
    ensures Legal(ss) && ss[|ss| - 1] == s
    ensures s.blocked.None? && RegistryOk(s) && !Alive(s, e) && Held(s, e) && e in s.owners && s.owners[e] == a
    ensures s.tasks.Keys == {0, 1} && forall u | u in s.tasks :: !s.tasks[u].phase.InCleanup()
  {
    hide Legal;
    var d;
    ss, d := RegisterAgain(e, a);
    var k := Task(e, a, Running, false, NotStarted, false);
    var s8 := Holding(map[0 := d], 1, k, multiset{e});
    var s9 := Holding(map[0 := d], 1, k.(pending := true), multiset{});
    s := Holding(map[0 := d], 1, k.(phase := Dead(BeforeStart)), multiset{});
    assert s8.inflight - multiset{e} == multiset{};
    assert CancelSendStep(s8, s9, e);
    CallNext(ss, s8, s9, e);
    ss := ss + [s9];
    assert InterruptStep(s9, s, 1);
    TaskNext(ss, s9, s, 1);
    ss := ss + [s];
  }

  /** A run that ends with the manager's lock held for good.  A cancellation is marked while the first task
      of an id runs, and sent only after that task has finished and the id has been registered again; it
      reaches the second task before its first step, and another owner then registers the id. */
  lemma DeadlockReachable(e: Eid, a: Owner, b: Owner) returns (ss: seq<State>)
    requires a != b
    ensures IsRun(ss) && Undivided(ss) && ss[|ss| - 1].blocked == Some((e, b))
  {
    var s;
    ss, s := StaleCancel(e, a);
    var stuck := s.(blocked := Some((e, b)));
    assert RegisterStep(s, stuck, e, b, 2);
    CallNext(ss, s, stuck, e);
    ss := ss + [stuck];
  }
}
