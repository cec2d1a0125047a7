/** `ExecutionManager` as interleaved atomic steps; any number of registrations, cancellations and task
    steps interleave.  The stages of a task's cleanup are steps of their own, although up to the wait for
    the manager's lock the code never suspends between them: what holds of all these interleavings holds
    of the code's.  A cancellation is delivered only where the code does suspend. */
module ManagerModel {
  import opened Wrappers

  type Eid = string
  type Owner = string
  type TaskId = nat

  datatype Status = Running | Cancelling | Cancelled | Completed | Failed {
    predicate Terminal() {
      Cancelled? || Completed? || Failed?
    }
  }

  /** Why a task is done: its cleanup ran to the end, or a cancellation landed before its first step, or
      while it waited for the manager's lock, its execution lock released. */
  datatype Death = Clean | BeforeStart | AfterRelease

  /** Where a task stands: created, running its body, or at one of the stages of its cleanup. */
  datatype Phase = NotStarted | Body | Disconnecting | CleaningEvents | AwaitingRegistry | Dead(cause: Death) {
    predicate NeedsLock() {
      NotStarted? || Body? || Disconnecting?
    }

    predicate InCleanup() {
      Disconnecting? || CleaningEvents? || AwaitingRegistry?
    }
  }

  /** A registered task: RegisteredTask plus the asyncio task.  `pending` is an undelivered cancel(). */
  datatype Task = Task(eid: Eid, owner: Owner, status: Status, cancelEvent: bool, phase: Phase, pending: bool)

  /** `locks` maps an id with a lock object to whether it is locked; `inflight` are the cancel() calls
      between marking and Task.cancel(); `blocked` is a registration that waits for an execution
      lock and holds the manager's own lock meanwhile. */
  datatype State = State(tasks: map<TaskId, Task>, registry: map<Eid, TaskId>,
                         locks: map<Eid, bool>, owners: map<Eid, Owner>,
                         inflight: multiset<Eid>, blocked: Option<(Eid, Owner)>)

  const INITIAL: State := State(map[], map[], map[], map[], multiset{}, None)

  predicate Held(s: State, e: Eid) {
    e in s.locks && s.locks[e]
  }

  /** The registry names tasks that exist. */
  predicate RegistryOk(s: State) {
    forall e | e in s.registry :: s.registry[e] in s.tasks
  }

  predicate Alive(s: State, e: Eid)
    requires RegistryOk(s)
  {
    e in s.registry && !s.tasks[s.registry[e]].phase.Dead?
  }

  // ---------------------------------------------------------------- register

  datatype Registration = Duplicate | Refused | Waits | Registered(task: TaskId)

  /** The lock dictionary after `acquire` has made sure the id has a lock object. */
  function WithLock(s: State, e: Eid): map<Eid, bool> {
    if e in s.locks then s.locks else s.locks[e := false]
  }

  function Enrol(s: State, e: Eid, owner: Owner, t: TaskId): State {
    s.(tasks := s.tasks[t := Task(e, owner, Running, false, NotStarted, false)],
       registry := s.registry[e := t],
       locks := s.locks[e := true], owners := s.owners[e := owner])
  }

  function Register(s: State, e: Eid, owner: Owner, t: TaskId): (State, Registration)
    requires RegistryOk(s)
  {
    if Alive(s, e) then (s, Duplicate)
    else if Held(s, e) && e in s.owners && s.owners[e] == owner then (s, Refused)
    else if Held(s, e) then (s.(blocked := Some((e, owner))), Registration.Waits)
    else (Enrol(s.(locks := WithLock(s, e)), e, owner, t), Registered(t))
  }

  ghost predicate RegisterStep(s: State, s': State, e: Eid, owner: Owner, t: TaskId) {
    s.blocked.None? && RegistryOk(s) && t !in s.tasks && s' == Register(s, e, owner, t).0
  }

  /** A suspended registration goes on once the lock it waits for is free. */
  ghost predicate WakeStep(s: State, s': State, t: TaskId) {
    && s.blocked.Some? && !Held(s, s.blocked.value.0) && t !in s.tasks
    && s' == Enrol(s.(blocked := None), s.blocked.value.0, s.blocked.value.1, t)
  }

  // ---------------------------------------------------------------- the task

  ghost predicate StartStep(s: State, s': State, t: TaskId) {
    && t in s.tasks && s.tasks[t].phase.NotStarted? && !s.tasks[t].pending
    && s' == s.(tasks := s.tasks[t := s.tasks[t].(phase := Body)])
  }

  /** The body returns, raises, or ends with CancelledError. */
  ghost predicate FinishStep(s: State, s': State, t: TaskId, result: Status) {
    && t in s.tasks && s.tasks[t].phase.Body? && result.Terminal()
    && s' == s.(tasks := s.tasks[t := s.tasks[t].(phase := Disconnecting, status := result)])
  }

  /** `ExecutionLock.cleanup`: unlock if locked and forget lock and owner. */
  ghost predicate ReleaseStep(s: State, s': State, t: TaskId) {
    && t in s.tasks && s.tasks[t].phase.Disconnecting?
    && var e := s.tasks[t].eid;
       s' == s.(tasks := s.tasks[t := s.tasks[t].(phase := CleaningEvents)],
                locks := s.locks - {e}, owners := s.owners - {e})
  }

  ghost predicate EventsStep(s: State, s': State, t: TaskId) {
    && t in s.tasks && s.tasks[t].phase.CleaningEvents?
    && s' == s.(tasks := s.tasks[t := s.tasks[t].(phase := AwaitingRegistry)])
  }

  /** The last cleanup stage removes whatever the registry holds under the id. */
  ghost predicate PopStep(s: State, s': State, t: TaskId) {
    && s.blocked.None? && t in s.tasks && s.tasks[t].phase.AwaitingRegistry?
    && s' == s.(tasks := s.tasks[t := s.tasks[t].(phase := Dead(Clean))], registry := s.registry - {s.tasks[t].eid})
  }

  /** Whether the task is suspended where it stands.  In its cleanup it can be only at the manager's lock,
      and only while a suspended registration holds that lock: the subscriber and queue stages take a lock
      that is never held across an await, and await nothing else. */
  predicate Suspended(s: State, t: TaskId)
    requires t in s.tasks
  {
    var p := s.tasks[t].phase;
    p.NotStarted? || p.Body? || (p.AwaitingRegistry? && s.blocked.Some?)
  }

  /** A body may handle a cancellation and go on; a task that has not started, or waits for the manager's
      lock, is over at once. */
  function Interrupted(p: Phase): Phase {
    match p
    case NotStarted => Dead(BeforeStart)
    case AwaitingRegistry => Dead(AfterRelease)
    case _ => p
  }

  /** A pending cancellation reaches a suspended task. */
  ghost predicate InterruptStep(s: State, s': State, t: TaskId) {
    && t in s.tasks && s.tasks[t].pending && Suspended(s, t)
    && s' == s.(tasks := s.tasks[t := s.tasks[t].(phase := Interrupted(s.tasks[t].phase), pending := false)])
  }

  // ---------------------------------------------------------------- cancel

  /** The first half of `cancel`, under the manager's lock. */
  ghost predicate CancelMarkStep(s: State, s': State, e: Eid) {
    && s.blocked.None? && RegistryOk(s) && e in s.registry && !s.tasks[s.registry[e]].status.Terminal()
    && var t := s.registry[e];
       s' == s.(tasks := s.tasks[t := s.tasks[t].(status := Cancelling, cancelEvent := true)],
                inflight := s.inflight + multiset{e})
  }

  /** The second half, after the database writes: whatever task is now registered gets cancel(). */
  ghost predicate CancelSendStep(s: State, s': State, e: Eid) {
    && e in s.inflight && RegistryOk(s)
    && var s1 := s.(inflight := s.inflight - multiset{e});
       s' == if Alive(s, e) then
               s1.(tasks := s.tasks[s.registry[e] := s.tasks[s.registry[e]].(pending := true)])
             else s1
  }

  ghost predicate TaskStep(s: State, s': State, t: TaskId) {
    || StartStep(s, s', t)
    || (exists result :: FinishStep(s, s', t, result))
    || ReleaseStep(s, s', t)
    || EventsStep(s, s', t)
    || PopStep(s, s', t)
    || InterruptStep(s, s', t)
    || WakeStep(s, s', t)
  }

  ghost predicate CallStep(s: State, s': State, e: Eid) {
    || (exists owner, t :: RegisterStep(s, s', e, owner, t))
    || CancelMarkStep(s, s', e)
    || CancelSendStep(s, s', e)
  }

  ghost predicate Next(s: State, s': State) {
    (exists t :: TaskStep(s, s', t)) || (exists e :: CallStep(s, s', e))
  }

  ghost predicate IsRun(ss: seq<State>) {
    |ss| > 0 && ss[0] == INITIAL && forall i, j | 0 <= i < |ss| - 1 && j == i + 1 :: Next(ss[i], ss[j])
  }

  // ---------------------------------------------------------------- the invariant

  /** Per task: a live one is the registered one for its id, its lock is held until its cleanup
      releases it, and its status is terminal exactly once its body is over. */
  ghost predicate TaskOk(s: State, t: TaskId)
    requires t in s.tasks
  {
    var k := s.tasks[t];
    && (!k.phase.Dead? ==> k.eid in s.registry && s.registry[k.eid] == t)
    && (k.phase.NeedsLock() ==> Held(s, k.eid) && k.eid in s.owners && s.owners[k.eid] == k.owner)
    && (k.phase.NotStarted? || k.phase.Body? ==> !k.status.Terminal())
    && (k.phase.InCleanup() ==> k.status.Terminal())
    && (k.status == Cancelling ==> k.cancelEvent)
  }

  /** Per id: what is registered exists under that id, a cleanly finished task has left, and the lock
      is held exactly while the registered task needs it or died without releasing it. */
  ghost predicate EidOk(s: State, e: Eid) {
    && (e in s.registry ==> s.registry[e] in s.tasks && s.tasks[s.registry[e]].eid == e
                            && s.tasks[s.registry[e]].phase != Dead(Clean))
    && (Held(s, e) <==> e in s.registry && s.registry[e] in s.tasks
                        && (s.tasks[s.registry[e]].phase.NeedsLock() || Leaked(s.tasks[s.registry[e]].phase)))
  }

  predicate Leaked(p: Phase) {
    p == Dead(BeforeStart)
  }

  ghost predicate BlockedOk(s: State) {
    s.blocked.Some? ==> s.blocked.value.0 in s.registry && s.registry[s.blocked.value.0] in s.tasks
                        && Leaked(s.tasks[s.registry[s.blocked.value.0]].phase)
  }

  ghost predicate Inv(s: State) {
    && (forall t | t in s.tasks :: TaskOk(s, t))
    && (forall e :: EidOk(s, e))
    && BlockedOk(s)
  }
}
