/** ApprovalServer as an object. Each method is one uninterrupted stretch of a handler or of
    the timeout task, written as the source writes it and proved to be the same step of
    Approval. */
module ApprovalServer {
  import opened Wrappers
  import opened Incidents
  import opened Approval
  import opened ApprovalLaws

  class ApprovalServer {
    var store: map<string, Incident>
    var locks: map<string, nat>
    var held: set<nat>
    var timeouts: map<string, nat>
    var tasks: map<nat, Task>
    var nextLock: nat
    var nextTask: nat
    const registry: bool

    constructor (store: map<string, Incident>, registry: bool)
      ensures Starts(Value()) && Value().store == store && Value().registry == registry
    {
      this.store, this.registry := store, registry;
      locks, held, timeouts, tasks, nextLock, nextTask := map[], {}, map[], map[], 0, 0;
    }

    function Value(): Server
      reads this
    {
      Server(store, locks, held, timeouts, tasks, nextLock, nextTask, registry)
    }

    method GetLock(i: string) returns (lock: nat)
      modifies this`locks, this`nextLock
      ensures lock == TheLock(old(Value()), i) && locks == old(locks)[i := lock]
      ensures nextLock == if i in old(locks) then old(nextLock) else old(nextLock) + 1
    {
      if i !in locks {
        locks, nextLock := locks[i := nextLock], nextLock + 1;
      }
      lock := locks[i];
    }

    method Spawn(task: Task) returns (t: nat)
      modifies this`tasks, this`nextTask
      ensures t == old(nextTask) && nextTask == t + 1 && tasks == old(tasks)[t := task]
    {
      t := nextTask;
      tasks, nextTask := tasks[t := task], t + 1;
    }

    method CancelTimeout(i: string)
      modifies this`tasks, this`timeouts, this`locks
      ensures timeouts == old(timeouts) - {i} && locks == old(locks) - {i} && tasks.Keys == old(tasks).Keys
      ensures forall t :: t in tasks ==>
                tasks[t] == if Cancels(old(Value()), i, t) then old(tasks)[t].(pc := Done(Cancelled)) else old(tasks)[t]
    {
      if i in timeouts {
        var t := timeouts[i];
        timeouts := timeouts - {i};
        if t in tasks && !tasks[t].pc.Done? {
          tasks := tasks[t := tasks[t].(pc := Done(Cancelled))];
        }
      }
      locks := locks - {i};
    }

    method Arrive(i: string, kind: Kind) returns (t: nat)
      requires kind != Timeout && nextTask !in tasks
      modifies this
      ensures t == old(nextTask) && Value() == Next(old(Value()), Step.Arrive(i, kind))
    {
      var lock := GetLock(i);
      t := Spawn(Task(i, kind, Waiting(lock)));
      StepIs(old(Value()), Step.Arrive(i, kind), Value());
    }

    method StartTimeout(i: string)
      requires nextTask !in tasks
      modifies this
      ensures Value() == Next(old(Value()), Step.StartTimeout(i))
    {
      CancelTimeout(i);
      var t := Spawn(Task(i, Timeout, Sleeping));
      timeouts := timeouts[i := t];
      StepIs(old(Value()), Step.StartTimeout(i), Value());
    }

    method Wake(t: nat)
      requires Enabled(Value(), Step.Wake(t)) && t < nextTask
      modifies this
      ensures Value() == Next(old(Value()), Step.Wake(t))
    {
      var lock := GetLock(tasks[t].incident);
      tasks := tasks[t := tasks[t].(pc := Waiting(lock))];
      StepIs(old(Value()), Step.Wake(t), Value());
    }

    /** `Coordinator.reject`; the errors are the ValueErrors a handler turns into replies. */
    method CoordinatorReject(i: string) returns (refused: Option<Reply>)
      modifies this`store
      ensures refused == if i !in old(store) then Some(NotFound)
                         else if !Awaits(old(Value()), i) then Some(Conflict) else None
      ensures store == if refused.Some? then old(store) else old(store)[i := Rejected(old(store)[i])]
    {
      if i !in store { return Some(NotFound); }
      if store[i].state != AwaitingApproval { return Some(Conflict); }
      store := store[i := store[i].(state := Escalated)];
      refused := None;
    }

    method Reply(t: nat, reply: Reply)
      requires t in tasks
      modifies this`tasks
      ensures tasks == old(tasks)[t := old(tasks)[t].(pc := Done(reply))]
    {
      tasks := tasks[t := tasks[t].(pc := Done(reply))];
    }

    /** `handle_reject` from its lock on; nothing in it suspends. */
    method HandleReject(t: nat)
      requires Enabled(Value(), Enter(t)) && tasks[t].kind == Reject && t < nextTask
      modifies this
      ensures Value() == Next(old(Value()), Enter(t))
    {
      var i := tasks[t].incident;
      var refused := CoordinatorReject(i);
      if refused.Some? {
        Reply(t, refused.value);
        StepIs(old(Value()), Enter(t), Value());
      } else {
        CancelTimeout(i);
        RejectIs(old(Value()), t, Value());
        Reply(t, Accepted);
      }
    }

    /** `_timeout_task` from its lock on. */
    method TimeoutFires(t: nat)
      requires Enabled(Value(), Enter(t)) && tasks[t].kind == Timeout && t < nextTask
      modifies this
      ensures Value() == Next(old(Value()), Enter(t))
    {
      var i := tasks[t].incident;
      if i in store && store[i].state == AwaitingApproval {
        var _ := CoordinatorReject(i);
        timeouts := timeouts - {i};
        Reply(t, Accepted);
        StepIs(old(Value()), Enter(t), Value());
      } else {
        Reply(t, Ignored);
        StepIs(old(Value()), Enter(t), Value());
      }
    }

    /** A Slack action that is neither button. */
    method HandleUnknown(t: nat)
      requires Enabled(Value(), Enter(t)) && tasks[t].kind == Unknown && t < nextTask
      modifies this
      ensures Value() == Next(old(Value()), Enter(t))
    {
      Reply(t, Ignored);
      StepIs(old(Value()), Enter(t), Value());
    }

    /** `handle_approve` up to the safe action. */
    method BeginApprove(t: nat)
      requires Enabled(Value(), Enter(t)) && tasks[t].kind == Approve && t < nextTask
      modifies this
      ensures Value() == Next(old(Value()), Enter(t))
    {
      var i, lock := tasks[t].incident, tasks[t].pc.lock;
      if i !in store {
        Reply(t, NotFound);
      } else if store[i].state != AwaitingApproval || store[i].executed.None? || !registry {
        Reply(t, Conflict);
      } else {
        held := held + {lock};
        tasks := tasks[t := tasks[t].(pc := Executing(lock, store[i]))];
      }
      StepIs(old(Value()), Enter(t), Value());
    }

    /** `handle_approve` from the safe action's end on. */
    method EndApprove(t: nat, outcome: Outcome)
      requires Enabled(Value(), Finish(t, outcome)) && t < nextTask
      modifies this
      ensures Value() == Next(old(Value()), Finish(t, outcome))
    {
      var i, pc := tasks[t].incident, tasks[t].pc;
      if outcome.Lost? {
        Reply(t, ServerError);
      } else {
        store := store[i := Approved(pc.context, outcome)];
        CancelTimeout(i);
        Reply(t, Accepted);
      }
      held := held - {pc.lock};
      StepIs(old(Value()), Finish(t, outcome), Value());
    }

    method RecoverPendingApprovals(active: seq<(string, bool)>)
      requires Inv(Value())
      modifies this
      ensures Value() == Recovering(old(Value()), active)
    {
      for n := 0 to |active|
        invariant Value() == Recovering(old(Value()), active[..n]) && forall t: nat :: t in tasks ==> t < nextTask
      {
        assert active[..n + 1][..n] == active[..n];
        var (i, expired) := active[n];
        ghost var s := Value();
        if i in store && store[i].state == AwaitingApproval {
          if expired {
            var _ := CoordinatorReject(i);
            StepIs(s, Recover(i, expired), Value());
          } else {
            StartTimeout(i);
            SameStep(s, i);
          }
        } else {
          StepIs(s, Recover(i, expired), Value());
        }
      }
      assert active[..|active|] == active;
    }
  }

  lemma RejectIs(s: Server, t: nat, s': Server)
    requires Enabled(s, Enter(t)) && s.tasks[t].kind == Reject && t < s.nextTask && Awaits(s, s.tasks[t].incident)
    requires var i := s.tasks[t].incident;
             s' == s.(store := s.store[i := Rejected(s.store[i])],
                      timeouts := s.timeouts - {i}, locks := s.locks - {i}, tasks := s'.tasks)
    requires s'.tasks.Keys == s.tasks.Keys
    requires forall u :: u in s'.tasks ==>
               s'.tasks[u] == if Cancels(s, s.tasks[t].incident, u)
                              then s.tasks[u].(pc := Done(Cancelled)) else s.tasks[u]
    ensures s'.(tasks := s'.tasks[t := s'.tasks[t].(pc := Done(Accepted))]) == Next(s, Enter(t))
  {
    StepIs(s, Enter(t), s'.(tasks := s'.tasks[t := s'.tasks[t].(pc := Done(Accepted))]));
  }

  lemma SameStep(s: Server, i: string)
    requires Awaits(s, i)
    ensures Next(s, Recover(i, false)) == Next(s, StartTimeout(i))
  {
  }

  lemma StepIs(s: Server, a: Step, s': Server)
    requires Enabled(s, a)
    requires forall t: nat :: (if t in s'.tasks then Some(s'.tasks[t]) else None) ==
                              if t in s.tasks || t == s.nextTask then TaskAfter(s, a, t) else None
    requires s' == Next(s, a).(tasks := s'.tasks)
    ensures s' == Next(s, a)
  {
    hide TaskAfter, EffectOf, Subject, StoreAfter, LocksAfter, HeldAfter, TimeoutsAfter, Enabled;
    assert s'.tasks == Next(s, a).tasks;
  }
}
