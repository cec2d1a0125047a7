/** `ExecutionLock` and `ExecutionManager` as classes: each atomic section of their methods makes
    exactly one step of ManagerModel. */
module Manager {
  import opened ManagerModel
  import opened Wrappers

  datatype Acquisition = Acquired | Reentrant | Waits

  /** How a body ends: it returns, its cancellation goes through, or it raises anything else. */
  datatype Ending = Returned | Cancellation | Exception

  class ExecutionLock {
    var locks: map<Eid, bool>
    var owners: map<Eid, Owner>

    constructor ()
      ensures locks == map[] && owners == map[]
    {
      locks, owners := map[], map[];
    }

    predicate Locked(e: Eid)
      reads this
    {
      e in locks && locks[e]
    }

    /** Waits means that the coroutine suspends until the lock is released. */
    method Acquire(e: Eid, owner: Owner) returns (r: Acquisition)
      modifies this
      ensures r == if !old(Locked(e)) then Acquired
                   else if e in old(owners) && old(owners)[e] == owner then Reentrant else Acquisition.Waits
      ensures r == Acquired ==> Locked(e) && locks == old(locks)[e := true] && owners == old(owners)[e := owner]
      ensures r != Acquired ==> locks == old(locks) && owners == old(owners)
    {
      if e !in locks { locks := locks[e := false]; }
      if locks[e] && e in owners && owners[e] == owner { return Reentrant; }
      if locks[e] { return Acquisition.Waits; }
      locks := locks[e := true];
      owners := owners[e := owner];
      return Acquired;
    }

    method Release(e: Eid)
      modifies this
      ensures !Locked(e) && locks.Keys == old(locks).Keys && owners == old(owners) - {e}
      ensures forall f | f != e && f in locks :: locks[f] == old(locks)[f]
    {
      if e in locks && locks[e] { locks := locks[e := false]; }
      owners := owners - {e};
    }

    /** Forgets the id altogether, whoever holds its lock. */
    method Cleanup(e: Eid)
      modifies this
      ensures locks == old(locks) - {e} && owners == old(owners) - {e}
    {
      Release(e);
      locks := locks - {e};
      owners := owners - {e};
    }
  }

  class ExecutionManager {
    var tasks: map<TaskId, Task>
    var registry: map<Eid, TaskId>
    var inflight: multiset<Eid>
    var blocked: Option<(Eid, Owner)>
    const lock: ExecutionLock

    constructor ()
      ensures View() == INITIAL && fresh(lock)
    {
      tasks, registry, inflight, blocked := map[], map[], multiset{}, None;
      lock := new ExecutionLock();
    }

    function View(): State
      reads this, lock
    {
      State(tasks, registry, lock.locks, lock.owners, inflight, blocked)
    }

    /** `t` is the identity of the asyncio task that would be created. */
    method Register(e: Eid, owner: Owner, t: TaskId) returns (r: Registration)
      requires blocked.None? && RegistryOk(View()) && t !in tasks
      modifies this, lock
      ensures (View(), r) == ManagerModel.Register(old(View()), e, owner, t)
      ensures r.Registered? ==>
                && r.task == t && tasks == old(tasks)[t := Task(e, owner, Running, false, NotStarted, false)]
                && registry == old(registry)[e := t] && blocked.None?
                && lock.locks == old(lock.locks)[e := true] && lock.owners == old(lock.owners)[e := owner]
      ensures !r.Registered? ==>
                && tasks == old(tasks) && registry == old(registry)
                && lock.locks == old(lock.locks) && lock.owners == old(lock.owners)
                && blocked == if r.Waits? then Some((e, owner)) else None
    {
      if e in registry && !tasks[registry[e]].phase.Dead? { return Duplicate; }
      var acquired := lock.Acquire(e, owner);
      if acquired == Reentrant { return Refused; }
      if acquired == Acquisition.Waits {
        blocked := Some((e, owner));
        return Registration.Waits;
      }
      tasks := tasks[t := Task(e, owner, Running, false, NotStarted, false)];
      registry := registry[e := t];
      assert WithLock(old(View()), e)[e := true] == lock.locks;
      return Registered(t);
    }

    /** The three handlers of `_wrap_execution`, up to the start of its cleanup. */
    method FinishBody(t: TaskId, end: Ending) returns (result: Status)
      requires t in tasks && tasks[t].phase.Body?
      modifies this
      ensures FinishStep(old(View()), View(), t, result)
      ensures result == if end.Returned? then Completed else if end.Cancellation? then Cancelled else Failed
      ensures tasks == old(tasks)[t := old(tasks)[t].(status := result, phase := Disconnecting)]
      ensures registry == old(registry) && lock.locks == old(lock.locks) && lock.owners == old(lock.owners)
    {
      match end {
        case Returned => result := Completed;
        case Cancellation => result := Cancelled;
        case Exception => result := Failed;
      }
      tasks := tasks[t := tasks[t].(status := result)];
      tasks := tasks[t := tasks[t].(phase := Disconnecting)];
    }

    method CleanupLock(t: TaskId)
      requires t in tasks && tasks[t].phase.Disconnecting?
      modifies this, lock
      ensures ReleaseStep(old(View()), View(), t)
      ensures var e := old(tasks)[t].eid; lock.locks == old(lock.locks) - {e} && lock.owners == old(lock.owners) - {e}
      ensures tasks == old(tasks)[t := old(tasks)[t].(phase := CleaningEvents)] && registry == old(registry)
    {
      lock.Cleanup(tasks[t].eid);
      tasks := tasks[t := tasks[t].(phase := CleaningEvents)];
    }

    method CleanupRegistry(t: TaskId)
      requires blocked.None? && t in tasks && tasks[t].phase.AwaitingRegistry?
      modifies this
      ensures PopStep(old(View()), View(), t)
      ensures registry == old(registry) - {old(tasks)[t].eid}
      ensures tasks == old(tasks)[t := old(tasks)[t].(phase := Dead(Clean))]
    {
      registry := registry - {tasks[t].eid};
      tasks := tasks[t := tasks[t].(phase := Dead(Clean))];
    }

    /** The locked part of `cancel`: refuses an unknown id and one that is already terminal. */
    method CancelMark(e: Eid) returns (initiated: bool)
      requires blocked.None? && RegistryOk(View())
      modifies this
      ensures initiated <==> e in old(registry) && !old(tasks)[old(registry)[e]].status.Terminal()
      ensures initiated ==> CancelMarkStep(old(View()), View(), e)
      ensures !initiated ==> View() == old(View())
      ensures initiated ==>
                var t := old(registry)[e];
                && tasks == old(tasks)[t := old(tasks)[t].(status := Cancelling, cancelEvent := true)]
                && inflight == old(inflight) + multiset{e} && registry == old(registry)
    {
      if e !in registry { return false; }
      var t := registry[e];
      if tasks[t].status.Terminal() { return false; }
      tasks := tasks[t := tasks[t].(status := Cancelling, cancelEvent := true)];
      inflight := inflight + multiset{e};
      return true;
    }

    /** The part of `cancel` after its database writes. */
    method CancelSend(e: Eid)
      requires e in inflight && RegistryOk(View())
      modifies this
      ensures CancelSendStep(old(View()), View(), e)
      ensures tasks == (if e in old(registry) && !old(tasks)[old(registry)[e]].phase.Dead?
                        then old(tasks)[old(registry)[e] := old(tasks)[old(registry)[e]].(pending := true)]
                        else old(tasks))
      ensures inflight == old(inflight) - multiset{e} && registry == old(registry)
    {
      inflight := inflight - multiset{e};
      if e in registry && !tasks[registry[e]].phase.Dead? {
        tasks := tasks[registry[e] := tasks[registry[e]].(pending := true)];
      }
    }
  }
}
