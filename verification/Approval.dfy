/** The approval protocol (respond/server.py: locks, timeouts and handlers;
    respond/coordinator.py: `approve`, `reject`).

    Handlers are tasks of one event loop: each runs from one suspension to the next without
    interruption. `Next` is one such stretch. The per-incident lock lives in a table, and
    deciding an incident drops the lock from the table while it is still held. */
module Approval {
  import opened Wrappers
  import opened Incidents

  /** What approve and reject use of a stored incident; `executed` is None when the incident
      has no remediation result. */
  datatype Incident = Incident(state: IncidentState, executed: Option<bool>)

  /** Unknown is a Slack action that is neither approve nor reject. */
  datatype Kind = Approve | Reject | Unknown | Timeout

  datatype Reply = Accepted | NotFound | Conflict | Ignored | Cancelled | ServerError

  datatype Pc =
    | Sleeping
    | Waiting(lock: nat)
    | Executing(lock: nat, context: Incident)   // inside the safe action, holding the lock
    | Done(reply: Reply)

  datatype Task = Task(incident: string, kind: Kind, pc: Pc)

  datatype Server = Server(
    store: map<string, Incident>,
    locks: map<string, nat>,
    held: set<nat>,
    timeouts: map<string, nat>,
    tasks: map<nat, Task>,
    nextLock: nat,
    nextTask: nat,
    registry: bool)

  /** How a safe action ends. `Lost`: not even the failure could be recorded, and nothing is
      saved. */
  datatype Outcome = Performed | ActionFailed | RecordFailed | Lost

  datatype Step =
    | Park(incident: string, executed: Option<bool>)   // a pipeline stops at the approval gate
    | Arrive(incident: string, kind: Kind)             // a request asks for the lock
    | StartTimeout(incident: string)
    | Recover(incident: string, expired: bool)         // startup, for one active incident
    | Wake(task: nat)                                  // a timeout's sleep is over
    | Enter(task: nat)                                 // the lock is acquired
    | Finish(task: nat, outcome: Outcome)              // the safe action returns

  // ---------- steps ----------

  predicate Decided(s: Server, i: string) { i in s.store && Terminal(s.store[i].state) }

  predicate Awaits(s: Server, i: string) { i in s.store && s.store[i].state == AwaitingApproval }

  predicate Enabled(s: Server, a: Step) {
    match a
    case Park(i, _) => !Decided(s, i) && !Awaits(s, i)
    case Arrive(_, kind) => kind != Timeout
    case StartTimeout(_) => true
    case Recover(_, _) => true
    case Wake(t) => t in s.tasks && s.tasks[t].pc.Sleeping?
    case Enter(t) => t in s.tasks && s.tasks[t].pc.Waiting? && s.tasks[t].pc.lock !in s.held
    case Finish(t, _) => t in s.tasks && s.tasks[t].pc.Executing?
  }

  /** The task a step moves, if any. */
  function Actor(a: Step): Option<nat> {
    match a
    case Wake(t) => Some(t)
    case Enter(t) => Some(t)
    case Finish(t, _) => Some(t)
    case _ => None
  }

  /** The incident a step is about. */
  function Subject(s: Server, a: Step): string
    requires Enabled(s, a)
  {
    match a
    case Park(i, _) => i
    case Arrive(i, _) => i
    case StartTimeout(i) => i
    case Recover(i, _) => i
    case _ => s.tasks[Actor(a).value].incident
  }

  /** What one stretch does to the shared state. */
  datatype Effect = Effect(
    getsLock: bool,            // `_get_lock`
    saves: Option<Incident>,
    cancels: bool,             // `cancel_timeout`
    forgets: bool,             // the timeout pops its own entry
    moves: Option<Pc>,         // where the acting task stops
    spawns: Option<Task>)

  const NOTHING := Effect(false, None, false, false, None, None)

  function Replies(reply: Reply): Effect { NOTHING.(moves := Some(Done(reply))) }

  /** What `_get_lock` returns. */
  function TheLock(s: Server, i: string): nat { if i in s.locks then s.locks[i] else s.nextLock }

  /** What `reject` stores. */
  function Rejected(incident: Incident): Incident { incident.(state := Escalated) }

  /** What `approve` stores after its action. */
  function Approved(context: Incident, outcome: Outcome): Incident
    requires !outcome.Lost?
  {
    match outcome
    case Performed => Incident(Resolved, Some(true))
    case ActionFailed => context.(state := Escalated)
    case RecordFailed => Incident(Escalated, Some(true))
  }

  /** A handler from acquiring its lock to its next suspension. */
  function Handling(s: Server, kind: Kind, i: string, lock: nat): Effect {
    match kind
    case Unknown => Replies(Ignored)
    case Timeout =>
      if !Awaits(s, i) then Replies(Ignored)
      else Replies(Accepted).(saves := Some(Rejected(s.store[i])), forgets := true)
    case Reject =>
      if i !in s.store then Replies(NotFound)
      else if !Awaits(s, i) then Replies(Conflict)
      else Replies(Accepted).(saves := Some(Rejected(s.store[i])), cancels := true)
    case Approve =>
      if i !in s.store then Replies(NotFound)
      else if !Awaits(s, i) || s.store[i].executed.None? || !s.registry then Replies(Conflict)
      else NOTHING.(moves := Some(Executing(lock, s.store[i])))
  }

  function EffectOf(s: Server, a: Step): Effect
    requires Enabled(s, a)
  {
    match a
    case Park(_, executed) => NOTHING.(saves := Some(Incident(AwaitingApproval, executed)))
    case Arrive(i, kind) => NOTHING.(getsLock := true, spawns := Some(Task(i, kind, Waiting(TheLock(s, i)))))
    case StartTimeout(i) => NOTHING.(cancels := true, spawns := Some(Task(i, Timeout, Sleeping)))
    case Recover(i, expired) =>
      if !Awaits(s, i) then NOTHING
      else if expired then NOTHING.(saves := Some(Rejected(s.store[i])))
      else NOTHING.(cancels := true, spawns := Some(Task(i, Timeout, Sleeping)))
    case Wake(t) => NOTHING.(getsLock := true, moves := Some(Waiting(TheLock(s, s.tasks[t].incident))))
    case Enter(t) => Handling(s, s.tasks[t].kind, s.tasks[t].incident, s.tasks[t].pc.lock)
    case Finish(t, outcome) =>
      if outcome.Lost? then Replies(ServerError)
      else Replies(Accepted).(saves := Some(Approved(s.tasks[t].pc.context, outcome)), cancels := true)
  }

  /** Is `t` the registered timeout of `i`, still to be cancelled? */
  predicate Cancels(s: Server, i: string, t: nat) {
    i in s.timeouts && s.timeouts[i] == t && t in s.tasks && !s.tasks[t].pc.Done?
  }

  function TaskAfter(s: Server, a: Step, t: nat): Option<Task>
    requires Enabled(s, a)
  {
    var e := EffectOf(s, a);
    if e.spawns.Some? && t == s.nextTask then e.spawns
    else if t !in s.tasks then None
    else if Actor(a) == Some(t) && e.moves.Some? then Some(s.tasks[t].(pc := e.moves.value))
    else if e.cancels && Cancels(s, Subject(s, a), t) then Some(s.tasks[t].(pc := Done(Cancelled)))
    else Some(s.tasks[t])
  }

  function StoreAfter(s: Server, i: string, e: Effect): map<string, Incident> {
    if e.saves.Some? then s.store[i := e.saves.value] else s.store
  }

  function LocksAfter(s: Server, i: string, e: Effect): map<string, nat> {
    if e.cancels then s.locks - {i}
    else if e.getsLock then s.locks[i := TheLock(s, i)]
    else s.locks
  }

  /** Only a running action keeps its lock past the stretch. */
  function HeldAfter(s: Server, a: Step, e: Effect): set<nat>
    requires Enabled(s, a)
  {
    if a.Finish? then s.held - {s.tasks[a.task].pc.lock}
    else if e.moves.Some? && e.moves.value.Executing? then s.held + {e.moves.value.lock}
    else s.held
  }

  function TimeoutsAfter(s: Server, i: string, e: Effect): map<string, nat> {
    if e.spawns.Some? && e.spawns.value.kind.Timeout? then s.timeouts[i := s.nextTask]
    else if e.cancels || e.forgets then s.timeouts - {i}
    else s.timeouts
  }

  function Next(s: Server, a: Step): Server
    requires Enabled(s, a)
  {
    var i, e := Subject(s, a), EffectOf(s, a);
    Server(
      StoreAfter(s, i, e), LocksAfter(s, i, e), HeldAfter(s, a, e), TimeoutsAfter(s, i, e),
      map t | t in s.tasks.Keys + {s.nextTask} && TaskAfter(s, a, t).Some? :: TaskAfter(s, a, t).value,
      if e.getsLock && i !in s.locks then s.nextLock + 1 else s.nextLock,
      if e.spawns.Some? then s.nextTask + 1 else s.nextTask,
      s.registry)
  }

  // ---------- the inductive invariant ----------

  predicate HasLock(pc: Pc) { pc.Waiting? || pc.Executing? }

  predicate Live(pc: Pc) { pc.Sleeping? || pc.Waiting? }

  ghost predicate TaskOk(s: Server, t: nat)
    requires t in s.tasks
  {
    var Task(i, kind, pc) := s.tasks[t];
    && t < s.nextTask
    && (HasLock(pc) ==> pc.lock < s.nextLock)
    // until the incident is decided, everyone who may still touch it uses the table's lock
    && (HasLock(pc) && !Decided(s, i) ==> i in s.locks && s.locks[i] == pc.lock)
    // a running action holds its lock, and what it loaded is still what is stored
    && (pc.Executing? ==>
          && kind.Approve? && pc.lock in s.held && Awaits(s, i) && s.store[i] == pc.context
          && s.registry && pc.context.executed.Some?)
    // the live timeout is the registered one
    && (kind.Timeout? && Live(pc) ==> i in s.timeouts && s.timeouts[i] == t)
    && (pc.Sleeping? ==> kind.Timeout?)
    && (pc == Done(Accepted) ==> Decided(s, i))
  }

  /** Distinct tasks neither hold the same lock nor are both accepted for one incident. */
  ghost predicate PairOk(s: Server, t: nat, u: nat)
    requires t in s.tasks && u in s.tasks
  {
    t != u ==>
      && (s.tasks[t].pc.Executing? && s.tasks[u].pc.Executing? ==> s.tasks[t].pc.lock != s.tasks[u].pc.lock)
      && (s.tasks[t].pc == Done(Accepted) == s.tasks[u].pc ==> s.tasks[t].incident != s.tasks[u].incident)
  }

  predicate Holds(s: Server, t: nat, l: nat) { t in s.tasks && s.tasks[t].pc.Executing? && s.tasks[t].pc.lock == l }

  /** Only running actions keep a lock across a suspension. */
  ghost predicate Held(s: Server, l: nat) { exists t: nat :: Holds(s, t, l) }

  ghost predicate TimeoutOk(s: Server, i: string)
    requires i in s.timeouts
  {
    s.timeouts[i] in s.tasks && s.tasks[s.timeouts[i]].kind.Timeout? && s.tasks[s.timeouts[i]].incident == i
  }

  ghost predicate Inv(s: Server) {
    && (forall t :: t in s.tasks ==> TaskOk(s, t))
    && (forall t, u :: t in s.tasks && u in s.tasks ==> PairOk(s, t, u))
    && (forall l :: l in s.held ==> Held(s, l))
    && (forall i :: i in s.timeouts ==> TimeoutOk(s, i))
    && (forall i :: i in s.locks ==> s.locks[i] < s.nextLock)
  }

  /** A request handler between asking for the lock and finishing. */
  ghost predicate InFlight(s: Server, i: string) {
    exists t :: t in s.tasks && s.tasks[t].incident == i && !s.tasks[t].kind.Timeout? && HasLock(s.tasks[t].pc)
  }

  /** The assumptions on the environment: timeouts are started and recovered only while no
      handler of the incident is in flight, and an action's end is recorded. */
  ghost predicate Careful(s: Server, a: Step) {
    match a
    case StartTimeout(i) => !InFlight(s, i)
    case Recover(i, _) => !InFlight(s, i)
    case Finish(_, outcome) => !outcome.Lost?
    case _ => true
  }
}
