/** Safety of the approval protocol over every interleaving of requests, Slack clicks and
    timeouts, for any number of incidents. */
module ApprovalLaws {
  import opened Wrappers
  import opened Incidents
  import opened Approval

  // ---------- the invariant is inductive ----------

  /** What the invariant says about one task, the acting task and the step's incident. */
  ghost predicate Local(s: Server, a: Step, t: nat)
    requires Enabled(s, a)
  {
    var i := Subject(s, a);
    && (t in s.tasks ==> TaskOk(s, t))
    && (Actor(a).Some? ==> TaskOk(s, Actor(a).value) && (t in s.tasks ==> PairOk(s, t, Actor(a).value)))
    && (i in s.timeouts ==> TimeoutOk(s, i))
    && (i in s.locks ==> s.locks[i] < s.nextLock)
    && ((a.StartTimeout? || a.Recover?) && t in s.tasks && s.tasks[t].incident == i && HasLock(s.tasks[t].pc) ==>
          s.tasks[t].kind.Timeout?)
    && (a.Finish? ==> !a.outcome.Lost?)
  }

  lemma InvIsLocal(s: Server, a: Step, t: nat)
    requires Inv(s) && Enabled(s, a) && Careful(s, a)
    ensures Local(s, a, t)
  {
    hide TaskOk, PairOk, Held, TimeoutOk;
  }

  lemma ArriveKeeps(s: Server, a: Step, t: nat)
    requires Enabled(s, a) && Local(s, a, t) && t in Next(s, a).tasks && (a.Arrive? || a.Park? || a.Wake?)
    ensures TaskOk(Next(s, a), t)
  {
  }

  lemma TimeoutKeeps(s: Server, a: Step, t: nat)
    requires Enabled(s, a) && Local(s, a, t) && t in Next(s, a).tasks && (a.StartTimeout? || a.Recover?)
    ensures TaskOk(Next(s, a), t)
  {
  }

  lemma EnterKeeps(s: Server, a: Step, t: nat)
    requires a.Enter? && Enabled(s, a) && Local(s, a, t) && t in Next(s, a).tasks
    ensures TaskOk(Next(s, a), t)
  {
    match s.tasks[a.task].kind {
      case Approve => ApproveKeeps(s, a, t);
      case Reject => RejectKeeps(s, a, t);
      case _ => OtherKeeps(s, a, t);
    }
  }

  lemma ApproveKeeps(s: Server, a: Step, t: nat)
    requires a.Enter? && Enabled(s, a) && Local(s, a, t) && t in Next(s, a).tasks && s.tasks[a.task].kind.Approve?
    ensures TaskOk(Next(s, a), t)
  {
  }

  lemma RejectKeeps(s: Server, a: Step, t: nat)
    requires a.Enter? && Enabled(s, a) && Local(s, a, t) && t in Next(s, a).tasks && s.tasks[a.task].kind.Reject?
    ensures TaskOk(Next(s, a), t)
  {
  }

  lemma OtherKeeps(s: Server, a: Step, t: nat)
    requires a.Enter? && Enabled(s, a) && Local(s, a, t) && t in Next(s, a).tasks
    requires s.tasks[a.task].kind.Unknown? || s.tasks[a.task].kind.Timeout?
    ensures TaskOk(Next(s, a), t)
  {
  }

  lemma FinishKeeps(s: Server, a: Step, t: nat)
    requires a.Finish? && Enabled(s, a) && Local(s, a, t) && t in Next(s, a).tasks
    ensures TaskOk(Next(s, a), t)
  {
  }

  lemma KeepsTask(s: Server, a: Step, t: nat)
    requires Enabled(s, a) && Local(s, a, t) && t in Next(s, a).tasks
    ensures TaskOk(Next(s, a), t)
  {
    hide Next, Local, TaskOk, Enabled;
    match a {
      case Enter(_) => EnterKeeps(s, a, t);
      case Finish(_, _) => FinishKeeps(s, a, t);
      case StartTimeout(_) => TimeoutKeeps(s, a, t);
      case Recover(_, _) => TimeoutKeeps(s, a, t);
      case _ => ArriveKeeps(s, a, t);
    }
  }

  /** A step gives a task a running action or an accepted reply only as its actor. */
  lemma OnlyTheActorAdvances(s: Server, a: Step, t: nat)
    requires Enabled(s, a) && Local(s, a, t) && t in Next(s, a).tasks && Actor(a) != Some(t)
    ensures var pc := Next(s, a).tasks[t].pc;
            if t in s.tasks then pc == s.tasks[t].pc || pc == Done(Cancelled)
            else Live(pc)
    ensures t in s.tasks ==> Next(s, a).tasks[t] == s.tasks[t].(pc := Next(s, a).tasks[t].pc)
  {
  }

  lemma ActorAdvances(s: Server, a: Step)
    requires Enabled(s, a) && Actor(a).Some? && Local(s, a, Actor(a).value)
    ensures var t := Actor(a).value;
            var pc := Next(s, a).tasks[t].pc;
            && t in s.tasks && t in Next(s, a).tasks && Next(s, a).tasks[t] == s.tasks[t].(pc := pc)
            && (pc.Executing? ==> a.Enter? && pc.lock == s.tasks[t].pc.lock && pc.lock !in s.held)
            && (pc == Done(Accepted) ==> !Decided(s, s.tasks[t].incident))
  {
  }

  lemma KeepsPair(s: Server, a: Step, t: nat, u: nat)
    requires Enabled(s, a) && Local(s, a, t) && Local(s, a, u) && t in Next(s, a).tasks && u in Next(s, a).tasks
    requires t in s.tasks && u in s.tasks ==> PairOk(s, t, u)
    requires Actor(a).Some? ==> Local(s, a, Actor(a).value)
    ensures PairOk(Next(s, a), t, u)
  {
    hide Next;
    if Actor(a) != Some(t) { OnlyTheActorAdvances(s, a, t); } else { ActorAdvances(s, a); }
    if Actor(a) != Some(u) { OnlyTheActorAdvances(s, a, u); } else { ActorAdvances(s, a); }
  }

  /** A held lock stays with its running action until that action finishes. */
  lemma KeepsHolder(s: Server, a: Step, t: nat, l: nat)
    requires Enabled(s, a) && Local(s, a, t) && Holds(s, t, l) && Actor(a) != Some(t)
    ensures Holds(Next(s, a), t, l)
  {
    hide Next;
    assert Next(s, a).tasks[t].pc.Executing? by { RunningIsUntouched(s, a, t); }
    RunningIsUntouched(s, a, t);
  }

  lemma RunningIsUntouched(s: Server, a: Step, t: nat)
    requires Enabled(s, a) && Local(s, a, t) && t in s.tasks && s.tasks[t].pc.Executing? && Actor(a) != Some(t)
    ensures t in Next(s, a).tasks && Next(s, a).tasks[t] == s.tasks[t]
  {
  }

  lemma KeepsHeld(s: Server, a: Step, l: nat)
    requires Inv(s) && Enabled(s, a) && Careful(s, a) && l in Next(s, a).held
    ensures Held(Next(s, a), l)
  {
    hide Next, TaskOk, Local, TimeoutOk, PairOk;
    HeldSource(s, a, l);
    if l in s.held {
      assert Held(s, l);
      var t: nat :| Holds(s, t, l);
      InvIsLocal(s, a, t);
      if Actor(a) == Some(t) {
        assert false;
      }
      KeepsHolder(s, a, t, l);
    } else {
      assert Holds(Next(s, a), a.task, l);
    }
  }

  lemma HeldSource(s: Server, a: Step, l: nat)
    requires Enabled(s, a) && l in Next(s, a).held
    ensures l in s.held || (a.Enter? && Holds(Next(s, a), a.task, l))
    ensures a.Finish? ==> l != s.tasks[a.task].pc.lock
  {
  }

  lemma KeepsTimeout(s: Server, a: Step, i: string)
    requires Enabled(s, a) && i in Next(s, a).timeouts
    requires i in s.timeouts ==> TimeoutOk(s, i) && TaskOk(s, s.timeouts[i])
    ensures TimeoutOk(Next(s, a), i)
  {
  }

  lemma KeepsLock(s: Server, a: Step, i: string)
    requires Enabled(s, a) && i in Next(s, a).locks && (i in s.locks ==> s.locks[i] < s.nextLock)
    ensures Next(s, a).locks[i] < Next(s, a).nextLock
  {
  }

  lemma StepKeepsInv(s: Server, a: Step)
    requires Inv(s) && Enabled(s, a) && Careful(s, a)
    ensures Inv(Next(s, a))
  {
    hide Next, Local, TaskOk, PairOk, Held, TimeoutOk, Careful, Enabled;
    var s' := Next(s, a);
    forall t: nat ensures Local(s, a, t) { InvIsLocal(s, a, t); }
    forall t | t in s'.tasks { KeepsTask(s, a, t); }
    forall t, u | t in s'.tasks && u in s'.tasks { KeepsPair(s, a, t, u); }
    forall l | l in s'.held { KeepsHeld(s, a, l); }
    forall i | i in s'.timeouts ensures TimeoutOk(s', i) { TimeoutTaskOk(s, i); KeepsTimeout(s, a, i); }
    forall i | i in s'.locks { KeepsLock(s, a, i); }
  }

  lemma TimeoutTaskOk(s: Server, i: string)
    requires Inv(s)
    ensures i in s.timeouts ==> TimeoutOk(s, i) && TaskOk(s, s.timeouts[i])
  {
    hide TaskOk, PairOk, Held;
  }

  // ---------- whole runs ----------

  /** A server that has just started over any stored incidents. */
  predicate Starts(s: Server) {
    s.locks == map[] && s.held == {} && s.timeouts == map[] && s.tasks == map[]
  }

  ghost predicate IsRun(steps: seq<Step>, states: seq<Server>) {
    && |states| == |steps| + 1 && Starts(states[0])
    && forall n :: 0 <= n < |steps| ==> Enabled(states[n], steps[n]) && states[n + 1] == Next(states[n], steps[n])
  }

  ghost predicate AllCareful(steps: seq<Step>, states: seq<Server>)
    requires |states| == |steps| + 1
  {
    forall n :: 0 <= n < |steps| ==> Careful(states[n], steps[n])
  }

  lemma {:induction false} RunKeepsInv(steps: seq<Step>, states: seq<Server>, n: nat)
    requires IsRun(steps, states) && AllCareful(steps, states) && n <= |steps|
    ensures Inv(states[n])
  {
    hide Next, Inv, Careful, Enabled;
    if n == 0 {
      FreshInv(states[0]);
    } else {
      RunKeepsInv(steps, states, n - 1);
      StepKeepsInv(states[n - 1], steps[n - 1]);
    }
  }

  lemma FreshInv(s: Server)
    requires Starts(s)
    ensures Inv(s)
  {
  }

  predicate Runs(s: Server, i: string, t: nat) { t in s.tasks && s.tasks[t].incident == i && s.tasks[t].pc.Executing? }

  function Stored(s: Server, i: string): Option<Incident> { if i in s.store then Some(s.store[i]) else None }

  /** A safe action of `i` is running. */
  ghost predicate Acting(s: Server, i: string) { exists t: nat :: Runs(s, i, t) }

  /** 0: open; 1: its action is running; 2: decided. */
  ghost function Phase(s: Server, i: string): nat { if Decided(s, i) then 2 else if Acting(s, i) then 1 else 0 }

  /** Step n starts the safe action of `i`. */
  predicate StartsAction(steps: seq<Step>, states: seq<Server>, n: nat, i: string)
    requires |states| == |steps| + 1 && n < |steps|
  {
    steps[n].Enter? && Runs(states[n + 1], i, steps[n].task)
  }

  predicate Decides(states: seq<Server>, n: nat, i: string)
    requires n + 1 < |states|
  {
    !Decided(states[n], i) && Decided(states[n + 1], i)
  }

  /** Decided incidents are never saved again. */
  lemma DecidedIsFinal(s: Server, a: Step, i: string)
    requires Inv(s) && Enabled(s, a) && Decided(s, i)
    ensures Decided(Next(s, a), i) && Stored(Next(s, a), i) == Stored(s, i)
  {
    if Actor(a).Some? { ActorOk(s, Actor(a).value); }
  }

  lemma ActorOk(s: Server, t: nat)
    requires Inv(s) && t in s.tasks
    ensures TaskOk(s, t)
  {
    hide TaskOk, PairOk;
  }

  lemma ActionEndsDecided(s: Server, a: Step, i: string, t: nat)
    requires Inv(s) && Enabled(s, a) && Careful(s, a) && Runs(s, i, t)
    ensures if Actor(a) == Some(t) then a.Finish? && !a.outcome.Lost? && Decided(Next(s, a), i) &&
                                        Stored(Next(s, a), i) == Some(Approved(s.tasks[t].pc.context, a.outcome))
            else Runs(Next(s, a), i, t) && Next(s, a).tasks[t] == s.tasks[t]
  {
    hide Inv, TaskOk;
    InvIsLocal(s, a, t);
    if Actor(a) == Some(t) {
    } else {
      RunningIsUntouched(s, a, t);
    }
  }

  lemma PhaseNeverFalls(s: Server, a: Step, i: string)
    requires Inv(s) && Enabled(s, a) && Careful(s, a)
    ensures Phase(s, i) <= Phase(Next(s, a), i)
  {
    hide Next, Inv, Careful, Enabled, Decided;
    if Decided(s, i) {
      DecidedIsFinal(s, a, i);
    } else if Acting(s, i) {
      var t: nat :| Runs(s, i, t);
      ActionEndsDecided(s, a, i, t);
    }
  }

  /** While an incident is open its handlers share the table's lock, so an action starts
      only when no other is running. */
  lemma ActionStartsFromOpen(s: Server, a: Step, i: string)
    requires Inv(s) && Enabled(s, a) && Careful(s, a) && a.Enter? && Runs(Next(s, a), i, a.task)
    ensures Phase(s, i) == 0 && Phase(Next(s, a), i) >= 1
  {
    ActorOk(s, a.task);
    assert Awaits(s, i) && Phase(s, i) != 2;
    forall t: nat
      ensures !Runs(s, i, t)
    {
      if Runs(s, i, t) { ActorOk(s, t); }
    }
  }

  lemma {:induction false} PhaseOverRun(steps: seq<Step>, states: seq<Server>, m: nat, n: nat, i: string)
    requires IsRun(steps, states) && AllCareful(steps, states) && m <= n <= |steps|
    ensures Phase(states[m], i) <= Phase(states[n], i)
    ensures Decided(states[m], i) ==> Decided(states[n], i) && Stored(states[n], i) == Stored(states[m], i)
    decreases n
  {
    hide Next, Inv, Careful, Enabled, Phase, Decided;
    if m < n {
      PhaseOverRun(steps, states, m, n - 1, i);
      RunKeepsInv(steps, states, n - 1);
      PhaseNeverFalls(states[n - 1], steps[n - 1], i);
      if Decided(states[n - 1], i) { DecidedIsFinal(states[n - 1], steps[n - 1], i); }
    }
  }

  /** MAIN: over every interleaving, the safe action of an incident starts at most once and
      at most one step decides it, after which what is stored never changes. */
  lemma ActsAndDecidesAtMostOnce(steps: seq<Step>, states: seq<Server>, m: nat, n: nat, i: string)
    requires IsRun(steps, states) && AllCareful(steps, states) && m < n < |steps|
    ensures !(StartsAction(steps, states, m, i) && StartsAction(steps, states, n, i))
    ensures !(Decides(states, m, i) && Decides(states, n, i))
    ensures Decides(states, m, i) ==>
              !StartsAction(steps, states, n, i) && Stored(states[n], i) == Stored(states[m + 1], i)
  {
    hide Next, Inv, Careful, Enabled;
    PhaseOverRun(steps, states, m + 1, n, i);
    if StartsAction(steps, states, n, i) {
      RunKeepsInv(steps, states, n);
      ActionStartsFromOpen(states[n], steps[n], i);
      if StartsAction(steps, states, m, i) {
        RunKeepsInv(steps, states, m);
        ActionStartsFromOpen(states[m], steps[m], i);
      }
    }
  }

  /** An open incident that ends up decided was decided by exactly one step. */
  lemma {:induction false} SomeStepDecides(steps: seq<Step>, states: seq<Server>, m: nat, n: nat, i: string)
    requires IsRun(steps, states) && m <= n <= |steps| && !Decided(states[m], i) && Decided(states[n], i)
    ensures exists k :: m <= k < n && Decides(states, k, i)
    decreases n
  {
    if Decided(states[n - 1], i) {
      SomeStepDecides(steps, states, m, n - 1, i);
    } else {
      assert Decides(states, n - 1, i);
    }
  }

  /** MAIN: no reject, timeout or second approval overtakes a running action: the incident
      is decided by that action's own end, as that end says. */
  lemma {:induction false} RunningActionDecides(steps: seq<Step>, states: seq<Server>, m: nat, n: nat, i: string,
                                                t: nat)
    requires IsRun(steps, states) && AllCareful(steps, states) && m <= n <= |steps| && Runs(states[m], i, t)
    ensures var context := states[m].tasks[t].pc.context;
            (Runs(states[n], i, t) && states[n].tasks[t] == states[m].tasks[t] && !Decided(states[n], i))
            || exists k :: m <= k < n && steps[k].Finish? && steps[k].task == t && !steps[k].outcome.Lost? &&
                           Decides(states, k, i) && Stored(states[n], i) == Some(Approved(context, steps[k].outcome))
    decreases n
  {
    hide Next, Inv, Careful, Enabled, Approved, Decided;
    RunKeepsInv(steps, states, n);
    if n == m {
      RunningIsOpen(states[m], i, t);
    } else {
      RunningActionDecides(steps, states, m, n - 1, i, t);
      RunKeepsInv(steps, states, n - 1);
      if Runs(states[n - 1], i, t) && states[n - 1].tasks[t] == states[m].tasks[t] && !Decided(states[n - 1], i) {
        ActionEndsDecided(states[n - 1], steps[n - 1], i, t);
        if Runs(states[n], i, t) { RunningIsOpen(states[n], i, t); }
      } else {
        var k :| m <= k < n - 1 && steps[k].Finish? && steps[k].task == t && !steps[k].outcome.Lost? &&
                 Decides(states, k, i) &&
                 Stored(states[n - 1], i) == Some(Approved(states[m].tasks[t].pc.context, steps[k].outcome));
        PhaseOverRun(steps, states, k + 1, n - 1, i);
        DecidedIsFinal(states[n - 1], steps[n - 1], i);
      }
    }
  }

  lemma RunningIsOpen(s: Server, i: string, t: nat)
    requires Inv(s) && Runs(s, i, t)
    ensures Awaits(s, i) && !Decided(s, i) && s.store[i].executed.Some? && s.registry
  {
    ActorOk(s, t);
  }

  /** At most one of all the requests and timeouts of an incident is accepted, and only
      once the incident is decided. */
  lemma OneAcceptedReply(steps: seq<Step>, states: seq<Server>, n: nat, t: nat, u: nat)
    requires IsRun(steps, states) && AllCareful(steps, states) && n <= |steps|
    requires t in states[n].tasks && u in states[n].tasks && states[n].tasks[t].incident == states[n].tasks[u].incident
    requires states[n].tasks[t].pc == Done(Accepted) == states[n].tasks[u].pc
    ensures t == u && Decided(states[n], states[n].tasks[t].incident)
  {
    RunKeepsInv(steps, states, n);
    ActorOk(states[n], t);
    assert PairOk(states[n], t, u);
  }

  /** A request that decides an incident leaves it no live timeout and no lock. */
  lemma DecidingCleansUp(s: Server, a: Step, t: nat)
    requires Inv(s) && Enabled(s, a) && Careful(s, a) && Actor(a).Some? && !s.tasks[Actor(a).value].kind.Timeout?
    requires !Decided(s, Subject(s, a)) && Decided(Next(s, a), Subject(s, a))
    requires t in Next(s, a).tasks && Next(s, a).tasks[t].incident == Subject(s, a) && Next(s, a).tasks[t].kind.Timeout?
    ensures Next(s, a).tasks[t].pc.Done? && Subject(s, a) !in Next(s, a).locks
  {
    ActorOk(s, Actor(a).value);
    if t in s.tasks { ActorOk(s, t); }
  }

  /** How an incident was decided can be read off what is stored: it is resolved exactly if
      its action was performed and recorded, and marked executed only if an action ran. */
  lemma DecisionSaysHow(s: Server, a: Step, i: string)
    requires Inv(s) && Enabled(s, a) && !Decided(s, i) && Decided(Next(s, a), i)
    ensures var after := Next(s, a).store[i];
            && i in s.store && Awaits(s, i)
            && (after.state == Resolved <==> a.Finish? && a.outcome == Performed)
            && (after.state != Resolved ==> after.state == Escalated)
            && (after.executed != s.store[i].executed ==>
              after.executed == Some(true) && a.Finish? && s.tasks[a.task].incident == i)
            && (after.state == Resolved ==> after.executed == Some(true))
  {
    if Actor(a).Some? { ActorOk(s, Actor(a).value); }
  }

  /** A handler that enters after the decision is turned away and changes nothing else. */
  lemma LateRequestsConflict(s: Server, t: nat)
    requires Enabled(s, Enter(t)) && Decided(s, s.tasks[t].incident)
    ensures var task := s.tasks[t];
            var reply := if task.kind.Approve? || task.kind.Reject? then Conflict else Ignored;
            Next(s, Enter(t)) == s.(tasks := s.tasks[t := task.(pc := Done(reply))])
  {
    var tasks := Next(s, Enter(t)).tasks;
    assert forall u :: u in tasks <==> u in s.tasks;
    assert tasks == s.tasks[t := tasks[t]];
  }

  /** No lost lock: a waiting task can enter, or the running action it waits for can finish. */
  lemma WaitingIsNotStuck(s: Server, t: nat)
    requires Inv(s) && t in s.tasks && s.tasks[t].pc.Waiting?
    ensures Enabled(s, Enter(t)) || exists u: nat :: Holds(s, u, s.tasks[t].pc.lock) && Enabled(s, Finish(u, Performed))
  {
    var l := s.tasks[t].pc.lock;
    if l in s.held {
      assert Held(s, l);
      var u: nat :| Holds(s, u, l);
      assert Enabled(s, Finish(u, Performed));
    }
  }

  // ---------- where the assumptions matter ----------

  /** Arriving and entering as an approval of an open incident whose lock is free starts
      its action. */
  lemma ApprovalStarts(s: Server, i: string)
    requires s.registry && Awaits(s, i) && s.store[i].executed.Some? && TheLock(s, i) !in s.held
    ensures var s1 := Next(s, Arrive(i, Approve));
            Enabled(s1, Enter(s.nextTask)) && Runs(Next(s1, Enter(s.nextTask)), i, s.nextTask)
  {
  }

  lemma RunsOnBesideApproval(s: Server, i: string, t: nat)
    requires Runs(s, i, t) && t < s.nextTask
    requires var s1 := Next(s, Arrive(i, Approve)); Enabled(s1, Enter(s.nextTask))
    ensures Runs(Next(Next(s, Arrive(i, Approve)), Enter(s.nextTask)), i, t)
  {
  }

  lemma TimeoutDropsLock(s: Server, i: string, t: nat)
    requires Inv(s) && Runs(s, i, t)
    ensures var s' := Next(s, StartTimeout(i));
            && Awaits(s', i) && s'.store == s.store && s'.registry == s.registry && s'.nextTask == s.nextTask + 1
            && TheLock(s', i) !in s'.held && Runs(s', i, t) && t < s.nextTask
  {
    ActorOk(s, t);
    forall l | l in s.held
      ensures l < s.nextLock
    {
      assert Held(s, l);
      var u: nat :| Holds(s, u, l);
      ActorOk(s, u);
    }
  }

  /** Starting a timeout while an approval runs drops its lock from the table: the next
      approval then runs the safe action a second time, beside the first. */
  lemma EagerTimeoutRunsActionTwice(s: Server, i: string, t: nat)
    requires Inv(s) && Runs(s, i, t)
    ensures var s1 := Next(s, StartTimeout(i));
            var s2 := Next(s1, Arrive(i, Approve));
            && Enabled(s2, Enter(s1.nextTask)) && s1.nextTask != t
            && Runs(Next(s2, Enter(s1.nextTask)), i, t) && Runs(Next(s2, Enter(s1.nextTask)), i, s1.nextTask)
  {
    hide Next, Enabled, Inv;
    AlwaysEnabled(s, i);
    RunningIsOpen(s, i, t);
    TimeoutDropsLock(s, i, t);
    ApprovalStarts(Next(s, StartTimeout(i)), i);
    RunsOnBesideApproval(Next(s, StartTimeout(i)), i, t);
  }

  lemma AlwaysEnabled(s: Server, i: string)
    ensures Enabled(s, StartTimeout(i)) && Enabled(Next(s, StartTimeout(i)), Arrive(i, Approve))
  {
  }

  /** `t` waits for a lock nobody holds, to handle the open incident `i`. */
  predicate Waits(s: Server, i: string, t: nat, kind: Kind) {
    && t in s.tasks && s.tasks[t].incident == i && s.tasks[t].kind == kind
    && s.tasks[t].pc.Waiting? && s.tasks[t].pc.lock !in s.held && Awaits(s, i)
  }

  /** The next handler of `i` gets a lock that `t` does not use and nobody holds. */
  ghost predicate LockIsNew(s: Server, i: string, t: nat) {
    && i !in s.locks && s.nextLock !in s.held && t in s.tasks && t < s.nextTask
    && HasLock(s.tasks[t].pc) && s.tasks[t].pc.lock < s.nextLock
  }

  lemma TimeoutSplitsLock(s: Server, i: string, t: nat, kind: Kind)
    requires Inv(s) && Waits(s, i, t, kind) && kind != Timeout
    ensures var s' := Next(s, StartTimeout(i));
            && Waits(s', i, t, kind) && LockIsNew(s', i, t) && s'.store == s.store && s'.registry == s.registry
            && i in s'.timeouts && s'.timeouts[i] != s'.nextTask
  {
    ActorOk(s, t);
    HeldBelow(s);
    if i in s.timeouts { TimeoutTaskOk(s, i); }
  }

  lemma HeldBelow(s: Server)
    requires Inv(s)
    ensures forall l :: l in s.held ==> l < s.nextLock
  {
    forall l | l in s.held
      ensures l < s.nextLock
    {
      assert Held(s, l);
      var u: nat :| Holds(s, u, l);
      ActorOk(s, u);
    }
  }

  lemma WaiterStarts(s: Server, i: string, t: nat)
    requires Waits(s, i, t, Approve) && LockIsNew(s, i, t) && s.registry && s.store[i].executed.Some?
    ensures Enabled(s, Enter(t))
    ensures var s' := Next(s, Enter(t));
            Runs(s', i, t) && LockIsNew(s', i, t) && s'.store == s.store && s'.registry == s.registry
  {
  }

  /** Starting a timeout beside an approval that waits for its lock: that approval and the next
      one both run the safe action, on different locks. */
  lemma EagerTimeoutSplitsApprovals(s: Server, i: string, t: nat)
    requires Inv(s) && Waits(s, i, t, Approve) && s.registry && s.store[i].executed.Some?
    ensures var s1 := Next(s, StartTimeout(i));
            Enabled(s1, Enter(t)) &&
            var s2 := Next(s1, Enter(t));
            var u, s3 := s2.nextTask, Next(s2, Arrive(i, Approve));
            Enabled(s3, Enter(u)) && u != t && Runs(Next(s3, Enter(u)), i, t) && Runs(Next(s3, Enter(u)), i, u)
  {
    hide Next, Enabled, Inv;
    assert Enabled(s, StartTimeout(i)) by { AlwaysEnabled(s, i); }
    var s1 := Next(s, StartTimeout(i));
    TimeoutSplitsLock(s, i, t, Approve);
    WaiterStarts(s1, i, t);
    var s2 := Next(s1, Enter(t));
    assert Enabled(s2, Arrive(i, Approve)) by { ApprovalsArrive(s2, i); }
    ApprovalStarts(s2, i);
    RunsOnBesideApproval(s2, i, t);
  }

  lemma ApprovalsArrive(s: Server, i: string)
    ensures Enabled(s, Arrive(i, Approve))
  {
  }

  lemma WaitsOnBesideApproval(s: Server, i: string, t: nat)
    requires Waits(s, i, t, Reject) && LockIsNew(s, i, t) && Enabled(s, Arrive(i, Approve))
    requires Enabled(Next(s, Arrive(i, Approve)), Enter(s.nextTask))
    ensures Waits(Next(Next(s, Arrive(i, Approve)), Enter(s.nextTask)), i, t, Reject)
    ensures Next(Next(s, Arrive(i, Approve)), Enter(s.nextTask)).timeouts == s.timeouts
  {
  }

  lemma RejectionBesideAction(s: Server, i: string, t: nat, u: nat)
    requires Waits(s, i, t, Reject) && Runs(s, i, u) && i in s.timeouts && s.timeouts[i] != u
    ensures Enabled(s, Enter(t)) && Decides([s, Next(s, Enter(t))], 0, i)
    ensures Stored(Next(s, Enter(t)), i).value.state == Escalated && Runs(Next(s, Enter(t)), i, u)
  {
  }

  lemma ActionOverwrites(s: Server, i: string, u: nat)
    requires Runs(s, i, u)
    ensures Enabled(s, Finish(u, Performed))
    ensures Stored(Next(s, Finish(u, Performed)), i) == Some(Incident(Resolved, Some(true)))
  {
  }

  /** Starting a timeout beside a rejection that waits for its lock: the next approval runs
      beside it, and its end overwrites what the rejection decided. */
  lemma EagerTimeoutOverwritesDecision(s: Server, i: string, t: nat)
    requires Inv(s) && Waits(s, i, t, Reject) && s.registry && s.store[i].executed.Some?
    ensures var s1 := Next(s, StartTimeout(i));
            var u, s2 := s1.nextTask, Next(s1, Arrive(i, Approve));
            Enabled(s2, Enter(u)) &&
            var s3 := Next(s2, Enter(u));
            Runs(s3, i, u) && Enabled(s3, Enter(t)) &&
            var s4 := Next(s3, Enter(t));
            && Decided(s4, i) && s4.store[i].state == Escalated && Enabled(s4, Finish(u, Performed))
            && Decided(Next(s4, Finish(u, Performed)), i) && Next(s4, Finish(u, Performed)).store[i].state == Resolved
  {
    hide Next, Enabled, Inv;
    AlwaysEnabled(s, i);
    var s1 := Next(s, StartTimeout(i));
    TimeoutSplitsLock(s, i, t, Reject);
    ApprovalStarts(s1, i);
    WaitsOnBesideApproval(s1, i, t);
    var s3 := Next(Next(s1, Arrive(i, Approve)), Enter(s1.nextTask));
    RejectionBesideAction(s3, i, t, s1.nextTask);
    ActionOverwrites(Next(s3, Enter(t)), i, s1.nextTask);
  }

  /** An action whose end is not recorded leaves the incident open: the next approval runs
      the action again. */
  lemma LostRecordRunsActionAgain(s: Server, i: string, t: nat)
    requires Inv(s) && Runs(s, i, t)
    ensures Enabled(s, Finish(t, Lost)) && Awaits(s, i)
    ensures var s1 := Next(s, Finish(t, Lost));
            var s2 := Next(s1, Arrive(i, Approve));
            Enabled(s2, Enter(s1.nextTask)) && Runs(Next(s2, Enter(s1.nextTask)), i, s1.nextTask)
  {
    ActorOk(s, t);
    var s1 := Next(s, Finish(t, Lost));
    assert Awaits(s1, i) && TheLock(s1, i) !in s1.held;
    ApprovalStarts(s1, i);
  }

  // ---------- how long a lock serializes ----------

  /** `t` waits for lock `l` to handle `i`. */
  predicate WaitsFor(s: Server, i: string, t: nat, l: nat) {
    t in s.tasks && s.tasks[t].incident == i && s.tasks[t].pc == Waiting(l)
  }

  /** A request, not a timeout, decides `i` in the step from `s` to `s'`. */
  predicate DecidedByRequest(s: Server, a: Step, s': Server, i: string) {
    && !Decided(s, i) && Decided(s', i)
    && Actor(a).Some? && Actor(a).value in s.tasks && !s.tasks[Actor(a).value].kind.Timeout?
  }

  predicate RequestDecides(steps: seq<Step>, states: seq<Server>, n: nat, i: string)
    requires n < |steps| && n + 1 < |states|
  {
    DecidedByRequest(states[n], steps[n], states[n + 1], i)
  }

  /** The next handler of `i` to ask gets lock `l`. */
  predicate GetsLock(s: Server, i: string, l: nat) { TheLock(s, i) == l }

  lemma LockWhileWaiting(s: Server, a: Step, i: string, t: nat, l: nat)
    requires Inv(s) && Enabled(s, a) && Careful(s, a) && WaitsFor(s, i, t, l) && WaitsFor(Next(s, a), i, t, l)
    ensures GetsLock(Next(s, a), i, l) <==> GetsLock(s, i, l) && !DecidedByRequest(s, a, Next(s, a), i)
  {
    ActorOk(s, t);
    if Actor(a).Some? { ActorOk(s, Actor(a).value); }
  }

  /** The lock `t` waits for stays the one in the table until a request decides the incident. */
  lemma {:induction false} LockStaysIff(steps: seq<Step>, states: seq<Server>, m: nat, n: nat, i: string, t: nat,
                                        l: nat)
    requires IsRun(steps, states) && AllCareful(steps, states) && m <= n <= |steps| && GetsLock(states[m], i, l)
    requires forall k :: m <= k <= n ==> WaitsFor(states[k], i, t, l)
    ensures GetsLock(states[n], i, l) <==> forall k :: m <= k < n ==> !RequestDecides(steps, states, k, i)
    decreases n
  {
    hide Next, Inv, Careful, Enabled, WaitsFor, GetsLock, DecidedByRequest;
    if m < n {
      assert WaitsFor(states[n - 1], i, t, l) && WaitsFor(states[n], i, t, l);
      LockStaysIff(steps, states, m, n - 1, i, t, l);
      RunKeepsInv(steps, states, n - 1);
      LockWhileWaiting(states[n - 1], steps[n - 1], i, t, l);
      assert RequestDecides(steps, states, n - 1, i) <==>
             DecidedByRequest(states[n - 1], steps[n - 1], states[n], i);
    }
  }

  lemma ArrivalsTakeLock(s: Server, i: string, kind: Kind, l: nat)
    requires kind != Timeout
    ensures WaitsFor(Next(s, Arrive(i, kind)), i, s.nextTask, l) <==> GetsLock(s, i, l)
    ensures GetsLock(s, i, l) ==> GetsLock(Next(s, Arrive(i, kind)), i, l)
  {
  }

  /** MAIN: how long a lock serializes. While `t` waits for the lock it took from the table, a
      later arrival waits for the same one iff no request has decided the incident since: a
      decision by timeout leaves the lock in place, one by request splits old waiters from
      new arrivals. */
  lemma LocksSplitIff(steps: seq<Step>, states: seq<Server>, m: nat, n: nat, i: string, t: nat, l: nat, kind: Kind)
    requires IsRun(steps, states) && AllCareful(steps, states) && m <= n <= |steps| && kind != Timeout
    requires GetsLock(states[m], i, l) && forall k :: m <= k <= n ==> WaitsFor(states[k], i, t, l)
    ensures WaitsFor(Next(states[n], Arrive(i, kind)), i, states[n].nextTask, l) <==>
            forall k :: m <= k < n ==> !RequestDecides(steps, states, k, i)
  {
    hide Next, Inv, Careful, Enabled, WaitsFor, GetsLock, DecidedByRequest;
    LockStaysIff(steps, states, m, n, i, t, l);
    assert Enabled(states[n], Arrive(i, kind)) by { ArrivalEnabled(states[n], i, kind); }
    ArrivalsTakeLock(states[n], i, kind, l);
  }

  lemma ArrivalEnabled(s: Server, i: string, kind: Kind)
    requires kind != Timeout
    ensures Enabled(s, Arrive(i, kind))
  {
  }

  // ---------- restarts of the process ----------

  /** One process: its steps and its states between them. */
  datatype Process = Process(steps: seq<Step>, states: seq<Server>) {
    ghost predicate Ok() { IsRun(steps, states) && AllCareful(steps, states) }
    function Last(): Server
      requires |states| > 0
    {
      states[|states| - 1]
    }
  }

  /** Processes that follow each other on one store, each ended anywhere by a crash or a stop. */
  ghost predicate IsHistory(ps: seq<Process>) {
    && (forall p :: 0 <= p < |ps| ==> ps[p].Ok())
    && forall p :: 0 < p < |ps| ==> ps[p].states[0].store == ps[p - 1].Last().store
  }

  lemma {:induction false} DecidedAcrossRestarts(ps: seq<Process>, p: nat, q: nat, n: nat, i: string)
    requires IsHistory(ps) && p < q < |ps| && n < |ps[q].states| && Decided(ps[p].Last(), i)
    ensures Decided(ps[q].states[n], i) && Stored(ps[q].states[n], i) == Stored(ps[p].Last(), i)
    decreases q
  {
    hide Next, Inv, Careful, Enabled, AllCareful;
    if p < q - 1 { DecidedAcrossRestarts(ps, p, q - 1, |ps[q - 1].states| - 1, i); }
    assert Decided(ps[q].states[0], i) && Stored(ps[q].states[0], i) == Stored(ps[q - 1].Last(), i);
    PhaseOverRun(ps[q].steps, ps[q].states, 0, n, i);
  }

  /** MAIN: across any number of processes, a safe action that one process starts is started
      again by a later one only if it was running when the first of them ended; and at most
      one step of all of them decides an incident. */
  lemma ActsAgainOnlyIfInterrupted(ps: seq<Process>, p: nat, m: nat, q: nat, n: nat, i: string)
    requires IsHistory(ps) && p < q < |ps| && m < |ps[p].steps| && n < |ps[q].steps|
    ensures StartsAction(ps[p].steps, ps[p].states, m, i) && StartsAction(ps[q].steps, ps[q].states, n, i) ==>
              Acting(ps[p].Last(), i)
    ensures !(Decides(ps[p].states, m, i) && Decides(ps[q].states, n, i))
  {
    hide Next, Inv, Careful, Enabled, AllCareful, Decided;
    var a, b := ps[p], ps[q];
    RunKeepsInv(a.steps, a.states, m);
    RunKeepsInv(b.steps, b.states, n);
    PhaseOverRun(a.steps, a.states, m + 1, |a.steps|, i);
    if Decided(a.Last(), i) { DecidedAcrossRestarts(ps, p, q, n, i); }
    if StartsAction(a.steps, a.states, m, i) { ActionStartsFromOpen(a.states[m], a.steps[m], i); }
    if StartsAction(b.steps, b.states, n, i) { ActionStartsFromOpen(b.states[n], b.steps[n], i); }
  }

  lemma Entered(s: Server, i: string)
    requires s.registry && Starts(s)
    ensures var s1 := Next(s, Arrive(i, Approve));
            Enabled(s1, Enter(s.nextTask)) &&
            (Runs(Next(s1, Enter(s.nextTask)), i, s.nextTask) <==> Awaits(s, i) && s.store[i].executed.Some?)
  {
  }

  /** MAIN: after an action was started, the next process starts it again on its first approval
      exactly if it was interrupted. */
  lemma RestartActsAgainIff(a: Process, m: nat, s: Server, i: string)
    requires a.Ok() && m < |a.steps| && StartsAction(a.steps, a.states, m, i)
    requires Starts(s) && s.registry && s.store == a.Last().store
    ensures var s1 := Next(s, Arrive(i, Approve));
            Enabled(s1, Enter(s.nextTask)) &&
            (Runs(Next(s1, Enter(s.nextTask)), i, s.nextTask) <==> Acting(a.Last(), i))
  {
    hide Next, Inv, Careful, Enabled;
    RunKeepsInv(a.steps, a.states, m);
    RunKeepsInv(a.steps, a.states, |a.steps|);
    ActionStartsFromOpen(a.states[m], a.steps[m], i);
    PhaseOverRun(a.steps, a.states, m + 1, |a.steps|, i);
    Entered(s, i);
    if Acting(a.Last(), i) {
      var t: nat :| Runs(a.Last(), i, t);
      RunningIsOpen(a.Last(), i, t);
    }
  }

  // ---------- what each step does ----------

  /** A handler that gets its lock, by what is stored: who is told what, when the safe action
      starts, and that only an accepted rejection or timeout saves, an escalation. */
  lemma EnterOutcome(s: Server, t: nat)
    requires Enabled(s, Enter(t))
    ensures var task, s' := s.tasks[t], Next(s, Enter(t));
            var i, pc := task.incident, s'.tasks[t].pc;
            var asks := task.kind.Approve? || task.kind.Reject?;
            && (pc == Done(NotFound) <==> asks && i !in s.store)
            && (pc == Done(Accepted) <==> (task.kind.Reject? || task.kind.Timeout?) && Awaits(s, i))
            && (pc.Executing? <==> task.kind.Approve? && Awaits(s, i) && s.store[i].executed.Some? && s.registry)
            && (pc.Executing? ==> pc == Executing(task.pc.lock, s.store[i]))
            && (pc == Done(Conflict) <==>
                  asks && i in s.store &&
                  (!Awaits(s, i) || (task.kind.Approve? && (s.store[i].executed.None? || !s.registry))))
            && (pc == Done(Ignored) <==> task.kind.Unknown? || (task.kind.Timeout? && !Awaits(s, i)))
            && s'.store == (if pc == Done(Accepted) then s.store[i := s.store[i].(state := Escalated)] else s.store)
            && s'.held == (if pc.Executing? then s.held + {task.pc.lock} else s.held)
  {
  }

  /** The end of a safe action, by how it ended. */
  lemma FinishOutcome(s: Server, t: nat, outcome: Outcome)
    requires Enabled(s, Finish(t, outcome))
    ensures var i, pc, s' := s.tasks[t].incident, s.tasks[t].pc, Next(s, Finish(t, outcome));
            && s'.held == s.held - {pc.lock}
            && s'.tasks[t].pc == Done(if outcome.Lost? then ServerError else Accepted)
            && s'.store ==
                 (if outcome.Lost? then s.store
                  else s.store[i := Incident(if outcome.Performed? then Resolved else Escalated,
                                             if outcome.ActionFailed? then pc.context.executed else Some(true))])
  {
  }

  /** A timeout that gets its lock while its incident still awaits rejects it, and changes
      nothing but the incident, its own entry and itself. */
  lemma TimeoutRejects(s: Server, t: nat)
    requires Enabled(s, Enter(t)) && s.tasks[t].kind.Timeout? && Awaits(s, s.tasks[t].incident)
    ensures var i := s.tasks[t].incident;
            Next(s, Enter(t)) ==
            s.(store := s.store[i := s.store[i].(state := Escalated)], timeouts := s.timeouts - {i},
               tasks := s.tasks[t := s.tasks[t].(pc := Done(Accepted))])
  {
    var tasks := Next(s, Enter(t)).tasks;
    assert forall u :: u in tasks <==> u in s.tasks;
    assert tasks == s.tasks[t := tasks[t]];
  }

  /** A pipeline that stops at the gate leaves the incident awaiting approval. */
  lemma ParkedAwaits(s: Server, i: string, executed: Option<bool>)
    requires Enabled(s, Park(i, executed))
    ensures Next(s, Park(i, executed)).store == s.store[i := Incident(AwaitingApproval, executed)]
    ensures Awaits(Next(s, Park(i, executed)), i)
  {
  }

  /** Starting a timeout leaves a live one and cancels the one before. */
  lemma StartedTimeoutGuards(s: Server, i: string)
    requires i in s.timeouts ==> TimeoutOk(s, i) && s.timeouts[i] < s.nextTask
    ensures var s' := Next(s, StartTimeout(i));
            && Guarded(s', i) && s'.timeouts[i] == s.nextTask && s'.store == s.store
            && (i in s.timeouts ==> s'.tasks[s.timeouts[i]].pc.Done?)
  {
  }

  /** Recovery escalates an awaiting incident iff its time has run out while the server was down;
      otherwise it leaves what is stored and starts a timeout. */
  lemma RecoverOutcome(s: Server, i: string, expired: bool)
    ensures var s' := Next(s, Recover(i, expired));
            && s'.store == (if Awaits(s, i) && expired then s.store[i := s.store[i].(state := Escalated)] else s.store)
            && (Awaits(s, i) && !expired ==> Guarded(s', i) && s'.timeouts[i] == s.nextTask)
            && (!Awaits(s, i) || expired ==> s' == s.(store := s'.store))
  {
    if !Awaits(s, i) || expired {
      var tasks := Next(s, Recover(i, expired)).tasks;
      assert forall u :: u in tasks ==> u in s.tasks && tasks[u] == s.tasks[u];
      assert forall u :: u in s.tasks ==> u in tasks;
      assert tasks == s.tasks;
    }
  }

  // ---------- a live timeout decides ----------

  /** No task uses the lock another incident has in the table. */
  ghost predicate OwnLock(s: Server, t: nat, j: string)
    requires t in s.tasks
  {
    HasLock(s.tasks[t].pc) && j in s.locks && s.locks[j] == s.tasks[t].pc.lock ==> j == s.tasks[t].incident
  }

  ghost predicate DifferentLocks(s: Server, i: string, j: string) {
    i in s.locks && j in s.locks && s.locks[i] == s.locks[j] ==> i == j
  }

  ghost predicate LocksApart(s: Server) {
    && (forall i, j :: DifferentLocks(s, i, j))
    && (forall t, j :: t in s.tasks ==> OwnLock(s, t, j))
  }

  lemma StepKeepsDifferent(s: Server, a: Step, i: string, j: string)
    requires Enabled(s, a) && DifferentLocks(s, i, j)
    requires (i in s.locks ==> s.locks[i] < s.nextLock) && (j in s.locks ==> s.locks[j] < s.nextLock)
    ensures DifferentLocks(Next(s, a), i, j)
  {
  }

  lemma StepKeepsOwnLock(s: Server, a: Step, t: nat, j: string)
    requires Enabled(s, a) && t in Next(s, a).tasks && (j in s.locks ==> s.locks[j] < s.nextLock)
    requires t in s.tasks ==> OwnLock(s, t, j) && (HasLock(s.tasks[t].pc) ==> s.tasks[t].pc.lock < s.nextLock)
    requires DifferentLocks(s, Subject(s, a), j)
    requires Actor(a).Some? ==> Actor(a).value in s.tasks && OwnLock(s, Actor(a).value, j)
    ensures OwnLock(Next(s, a), t, j)
  {
  }

  lemma StepKeepsApart(s: Server, a: Step)
    requires Inv(s) && Enabled(s, a) && LocksApart(s)
    ensures LocksApart(Next(s, a))
  {
    hide Next, Enabled, OwnLock, DifferentLocks, PairOk, Held, TimeoutOk;
    var s' := Next(s, a);
    forall i, j ensures DifferentLocks(s', i, j) { StepKeepsDifferent(s, a, i, j); }
    forall t: nat, j | t in s'.tasks
      ensures OwnLock(s', t, j)
    {
      assert Actor(a).Some? ==> Actor(a).value in s.tasks by { ActorExists(s, a); }
      StepKeepsOwnLock(s, a, t, j);
    }
  }

  lemma ActorExists(s: Server, a: Step)
    requires Enabled(s, a)
    ensures Actor(a).Some? ==> Actor(a).value in s.tasks
  {
  }

  lemma {:induction false} RunKeepsApart(steps: seq<Step>, states: seq<Server>, n: nat)
    requires IsRun(steps, states) && AllCareful(steps, states) && n <= |steps|
    ensures LocksApart(states[n])
  {
    hide Next, Inv, Careful, Enabled;
    if n > 0 {
      RunKeepsApart(steps, states, n - 1);
      RunKeepsInv(steps, states, n - 1);
      StepKeepsApart(states[n - 1], steps[n - 1]);
    }
  }

  lemma WokenTimeout(s: Server, i: string)
    requires Guarded(s, i) && Awaits(s, i) && TheLock(s, i) !in s.held
    ensures var t := s.timeouts[i];
            Enabled(s, Wake(t)) &&
            var s1 := Next(s, Wake(t));
            && Enabled(s1, Enter(t)) && s1.tasks[t].kind.Timeout? && s1.tasks[t].incident == i
            && s1.store == s.store && s1.held == s.held
  {
  }

  /** MAIN: at every moment of a run, an awaiting incident with a live timeout is decided without
      anyone's help: either its safe action is running, whose end decides it, or the timeout, once
      it wakes, gets the lock at once and rejects it. */
  lemma TimeoutDecides(steps: seq<Step>, states: seq<Server>, n: nat, i: string)
    requires IsRun(steps, states) && AllCareful(steps, states) && n <= |steps|
    requires Guarded(states[n], i) && Awaits(states[n], i) && !Acting(states[n], i)
    ensures var s, t := states[n], states[n].timeouts[i];
            Enabled(s, Wake(t)) &&
            var s1 := Next(s, Wake(t));
            Enabled(s1, Enter(t)) &&
            var s2 := Next(s1, Enter(t));
            && s2.store == s.store[i := s.store[i].(state := Escalated)] && Decided(s2, i)
            && i !in s2.timeouts && s2.tasks[t].pc == Done(Accepted)
  {
    hide Next, Inv, Careful, Enabled;
    var s := states[n];
    RunKeepsInv(steps, states, n);
    RunKeepsApart(steps, states, n);
    LockIsFree(s, i);
    WokenTimeout(s, i);
    TimeoutRejects(Next(s, Wake(s.timeouts[i])), s.timeouts[i]);
  }

  lemma LockIsFree(s: Server, i: string)
    requires Inv(s) && LocksApart(s) && !Acting(s, i)
    ensures TheLock(s, i) !in s.held
  {
    if TheLock(s, i) in s.held {
      HeldBelow(s);
      assert Held(s, TheLock(s, i));
      var u: nat :| Holds(s, u, TheLock(s, i));
      assert OwnLock(s, u, i);
      assert Runs(s, i, u);
      assert false;
    }
  }

  // ---------- startup ----------

  /** `recover_pending_approvals` over the active incidents, each expired or not. */
  function Recovering(s: Server, active: seq<(string, bool)>): Server {
    if |active| == 0 then s
    else
      var s' := Recovering(s, active[..|active| - 1]);
      Next(s', Recover(active[|active| - 1].0, active[|active| - 1].1))
  }

  /** Recovery before any request arrives keeps the invariant, and leaves every awaiting
      incident it visits decided or with a live timeout. */
  lemma {:induction false} RecoveryIsComplete(s: Server, active: seq<(string, bool)>, n: nat)
    requires Inv(s) && (forall t :: t in s.tasks ==> s.tasks[t].pc.Sleeping?) && n <= |active|
    ensures var s' := Recovering(s, active[..n]);
            && Inv(s') && (forall t :: t in s'.tasks ==> !HasLock(s'.tasks[t].pc))
            && (forall i :: Awaits(s', i) ==> Awaits(s, i))
            && (forall k :: 0 <= k < n && Awaits(s', active[k].0) ==> Guarded(s', active[k].0))
    decreases n
  {
    hide Inv, Enabled, Next;
    if n > 0 {
      RecoveryIsComplete(s, active, n - 1);
      var s1 := Recovering(s, active[..n - 1]);
      var a := Recover(active[n - 1].0, active[n - 1].1);
      assert active[..n][..n - 1] == active[..n - 1];
      assert Enabled(s1, a) by { RecoverIsEnabled(s1, a.incident, a.expired); }
      assert Careful(s1, a);
      StepKeepsInv(s1, a);
      forall t | t in Next(s1, a).tasks
        ensures !HasLock(Next(s1, a).tasks[t].pc)
      {
        RecoverTasks(s1, a.incident, a.expired, t);
      }
      forall i { RecoverGuards(s1, a.incident, a.expired, i); }
    } else {
      assert active[..0] == [];
    }
  }

  /** A live timeout will reject the incident if nobody decides it first. */
  predicate Guarded(s: Server, i: string) {
    i in s.timeouts && s.timeouts[i] in s.tasks && s.tasks[s.timeouts[i]] == Task(i, Timeout, Sleeping)
  }

  lemma RecoverIsEnabled(s: Server, i: string, expired: bool)
    ensures Enabled(s, Recover(i, expired))
  {
  }

  lemma RecoverTasks(s: Server, i: string, expired: bool, t: nat)
    requires forall u :: u in s.tasks ==> !HasLock(s.tasks[u].pc)
    requires t in Next(s, Recover(i, expired)).tasks
    ensures !HasLock(Next(s, Recover(i, expired)).tasks[t].pc)
  {
  }

  lemma RecoverGuards(s: Server, i: string, expired: bool, j: string)
    requires Inv(s)
    ensures var s' := Next(s, Recover(i, expired));
            && (Awaits(s', j) ==> Awaits(s, j))
            && (Awaits(s', j) && (j == i || Guarded(s, j)) ==> Guarded(s', j))
  {
    if j in s.timeouts {
      TimeoutTaskOk(s, j);
    }
  }
}
