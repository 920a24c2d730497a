/** The incident pipeline (respond/coordinator.py: `run`, `_run_pipeline`, `_next_step` and
    the gates). Agents are arbitrary: an agent step may flag escalation, the remediation step
    may leave a result, and any step may time out or raise. */
module Pipeline {
  import opened Wrappers
  import opened Incidents

  const STEPS := 4
  const INVESTIGATION := 1   // runs beside communication; failures of either are swallowed
  const REMEDIATION := 2

  datatype PipelineError = StepTimeout(step: nat) | Unrecoverable

  /** `remediation`: does the remediation result, if any, demand human approval? */
  datatype Context = Context(
    state: IncidentState,
    last: Option<nat>,
    escalation: bool,
    remediation: Option<bool>,
    error: Option<PipelineError>)

  const OPENED := Context(Triggered, None, false, None, None)

  datatype Ending = Returned | TimedOut | Raised

  datatype StepOutcome = StepOutcome(ending: Ending, escalates: bool, remediation: Option<bool>)

  const QUIET := StepOutcome(Returned, false, None)
  const UNEVENTFUL := [QUIET, QUIET, QUIET, QUIET]

  type Outcomes = os: seq<StepOutcome> | |os| == 4 witness UNEVENTFUL

  /** Nothing is left to drive. */
  predicate Settled(c: Context) { Terminal(c.state) || c.state == AwaitingApproval }

  function StateAt(step: nat): IncidentState {
    if step == 0 then Triaging else if step == INVESTIGATION then Investigating else Remediating
  }

  function NextStep(c: Context): Option<nat> {
    match c.last
    case None => Some(0)
    case Some(last) => if last + 1 >= STEPS then None else Some(last + 1)
  }

  /** The context as the agents of `step` leave it. */
  function AfterAgents(c: Context, step: nat, o: StepOutcome): Context {
    c.(state := StateAt(step), escalation := c.escalation || o.escalates,
       remediation := if step == REMEDIATION && o.remediation.Some? then o.remediation else c.remediation)
  }

  /** The agents of `step` fail it. */
  predicate Fails(step: nat, o: StepOutcome) { o.ending == TimedOut || (o.ending == Raised && step != INVESTIGATION) }

  predicate DemandsApproval(c: Context) { c.remediation == Some(true) }

  function RunFrom(c: Context, step: nat, os: Outcomes): Context
    requires step <= STEPS
    decreases STEPS - step
  {
    if step == STEPS then
      if Terminal(c.state) then c else c.(state := Resolved)
    else if step == 3 && (c.state == Escalated || c.state == Failed) then c
    else
      var o := os[step];
      var c' := AfterAgents(c, step, o);
      if o.ending == TimedOut then c'.(state := Failed, error := Some(StepTimeout(step)))
      else if Fails(step, o) then c'.(state := Failed, error := Some(Unrecoverable))
      else
        var done := c'.(last := Some(step));
        if done.escalation then done.(state := Escalated)
        else if step == REMEDIATION && DemandsApproval(done) then done.(state := AwaitingApproval)
        else RunFrom(done, step + 1, os)
  }

  /** `run`. */
  function PipelineOf(c: Context, os: Outcomes): Context {
    if c.state == AwaitingApproval then c
    else match NextStep(c)
      case None => if Terminal(c.state) then c else c.(state := Resolved)
      case Some(step) => RunFrom(c, step, os)
  }

  /** The steps whose agents ran. */
  function StepsRun(c: Context, step: nat, os: Outcomes): seq<nat>
    requires step <= STEPS
    decreases STEPS - step
  {
    if step == STEPS || (step == 3 && (c.state == Escalated || c.state == Failed)) then []
    else
      var done := AfterAgents(c, step, os[step]).(last := Some(step));
      [step] + if Fails(step, os[step]) || done.escalation || (step == REMEDIATION && DemandsApproval(done)) then []
               else StepsRun(done, step + 1, os)
  }

  class IncidentContext {
    var state: IncidentState
    var last: Option<nat>
    var escalation: bool
    var remediation: Option<bool>
    var error: Option<PipelineError>

    constructor (c: Context)
      ensures Value() == c
    {
      state, last, escalation, remediation, error := c.state, c.last, c.escalation, c.remediation, c.error;
    }

    function Value(): Context
      reads this
    {
      Context(state, last, escalation, remediation, error)
    }
  }

  /** An agent step on the shared context. */
  method ExecuteAgents(ctx: IncidentContext, step: nat, o: StepOutcome)
    modifies ctx
    ensures ctx.Value() == AfterAgents(old(ctx.Value()).(state := StateAt(step)), step, o)
  {
    ctx.state := StateAt(step);
    if o.escalates { ctx.escalation := true; }
    if step == REMEDIATION && o.remediation.Some? { ctx.remediation := o.remediation; }
  }

  method Run(ctx: IncidentContext, os: Outcomes)
    modifies ctx
    ensures ctx.Value() == PipelineOf(old(ctx.Value()), os)
  {
    if ctx.state == AwaitingApproval { return; }
    var start := NextStep(ctx.Value());
    if start.None? {
      if !Terminal(ctx.state) { ctx.state := Resolved; }
      return;
    }
    ghost var c := ctx.Value();
    var step := start.value;
    while step < STEPS
      invariant step <= STEPS
      invariant RunFrom(ctx.Value(), step, os) == RunFrom(c, start.value, os)
    {
      if step == 3 && (ctx.state == Escalated || ctx.state == Failed) { return; }
      var o := os[step];
      ExecuteAgents(ctx, step, o);
      if o.ending == TimedOut {
        ctx.state, ctx.error := Failed, Some(StepTimeout(step));
        return;
      }
      if Fails(step, o) {
        ctx.state, ctx.error := Failed, Some(Unrecoverable);
        return;
      }
      ctx.last := Some(step);
      if ctx.escalation {
        ctx.state := Escalated;
        return;
      }
      if step == REMEDIATION && ctx.remediation == Some(true) {
        ctx.state := AwaitingApproval;
        return;
      }
      step := step + 1;
    }
    if !Terminal(ctx.state) { ctx.state := Resolved; }
  }

  // ---------- laws ----------

  /** Whatever a run starts from, it ends terminal or waiting for approval. */
  lemma {:induction false} RunSettles(c: Context, step: nat, os: Outcomes)
    requires step <= STEPS
    ensures Settled(RunFrom(c, step, os))
    decreases STEPS - step
  {
    if step < STEPS && !(step == 3 && (c.state == Escalated || c.state == Failed)) {
      RunSettles(AfterAgents(c, step, os[step]).(last := Some(step)), step + 1, os);
    }
  }

  /** What the worker does with an incident in a cycle. */
  function Driven(c: Context, os: Outcomes): Context { if Settled(c) then c else PipelineOf(c, os) }

  /** One drive settles an incident, and driving never changes a settled one: its pipeline
      runs at most once. */
  lemma DrivenOnce(c: Context, os: Outcomes, os': Outcomes)
    ensures Settled(Driven(c, os)) && Driven(Driven(c, os), os') == Driven(c, os)
  {
    if NextStep(c).Some? { RunSettles(c, NextStep(c).value, os); }
  }

  /** Step `k` is where a newly opened incident's run stops: its agents time out, or raise and are
      not the two that run side by side, or flag escalation, or propose what needs approval. */
  predicate StopsAt(os: Outcomes, k: nat)
    requires k < STEPS
  {
    || os[k].ending == TimedOut || (os[k].ending == Raised && k != 1)
    || os[k].escalates || (k == 2 && os[2].remediation == Some(true))
  }

  predicate PassesBefore(os: Outcomes, k: nat)
    requires k <= STEPS
  {
    forall j :: 0 <= j < k ==> !StopsAt(os, j)
  }

  /** The context a run leaves that stops at `k`: failure comes before escalation and escalation
      before approval; a failed step is not the last completed one, and what its agents noted
      before it failed stays. */
  function EndingAt(os: Outcomes, k: nat): Context
    requires k < STEPS && StopsAt(os, k)
  {
    var failed := os[k].ending == TimedOut || (os[k].ending == Raised && k != 1);
    Context(
      if failed then Failed else if os[k].escalates then Escalated else AwaitingApproval,
      if !failed then Some(k) else if k == 0 then None else Some(k - 1),
      os[k].escalates,
      if k >= 2 then os[2].remediation else None,
      if !failed then None else if os[k].ending == TimedOut then Some(StepTimeout(k)) else Some(Unrecoverable))
  }

  /** MAIN: a newly opened incident runs its steps in order, each once, up to the first that
      fails, is flagged, or demands approval; that step alone decides how it ends. */
  lemma FirstGateDecides(os: Outcomes, k: nat)
    requires k < STEPS && PassesBefore(os, k) && StopsAt(os, k)
    ensures Driven(OPENED, os) == EndingAt(os, k)
    ensures StepsRun(OPENED, 0, os) == seq(k + 1, i => i)
  {
    PassesUpTo(os, 0, k, OPENED);
    assert seq(k, i => 0 + i) + [k] == seq(k + 1, i => i);
  }

  /** The context before step `j` of a run that has passed every gate so far. */
  predicate Unstopped(c: Context, os: Outcomes, j: nat)
    requires j <= STEPS
  {
    && !c.escalation && c.error.None? && !Terminal(c.state)
    && c.last == (if j == 0 then None else Some(j - 1))
    && c.remediation == (if j > 2 then os[2].remediation else None)
    && c.remediation != Some(true)
  }

  lemma {:induction false} PassesUpTo(os: Outcomes, j: nat, k: nat, c: Context)
    requires j <= k < STEPS && PassesBefore(os, k) && StopsAt(os, k) && Unstopped(c, os, j)
    ensures RunFrom(c, j, os) == EndingAt(os, k)
    ensures StepsRun(c, j, os) == seq(k - j, i => j + i) + [k]
    decreases k - j
  {
    if j < k {
      assert !StopsAt(os, j);
      PassesUpTo(os, j + 1, k, AfterAgents(c, j, os[j]).(last := Some(j)));
      assert [j] + (seq(k - j - 1, i => j + 1 + i) + [k]) == seq(k - j, i => j + i) + [k];
    }
  }

  /** MAIN: an incident is resolved without a human exactly if all four steps completed, no
      gate saw the escalation flag and remediation demanded no approval. */
  lemma ResolvedIff(os: Outcomes)
    ensures Driven(OPENED, os).state == Resolved <==> PassesBefore(os, STEPS)
    ensures PassesBefore(os, STEPS) ==>
              && StepsRun(OPENED, 0, os) == [0, 1, 2, 3]
              && Driven(OPENED, os) == Context(Resolved, Some(3), false, os[2].remediation, None)
  {
    if PassesBefore(os, STEPS) {
      PassesAll(os, 0, OPENED);
      assert seq(4, i => i) == [0, 1, 2, 3];
    } else {
      var k := FirstStop(os, 0);
      FirstGateDecides(os, k);
    }
  }

  lemma {:induction false} FirstStop(os: Outcomes, j: nat) returns (k: nat)
    requires j <= STEPS && PassesBefore(os, j) && !PassesBefore(os, STEPS)
    ensures k < STEPS && PassesBefore(os, k) && StopsAt(os, k)
    decreases STEPS - j
  {
    if StopsAt(os, j) { return j; }
    k := FirstStop(os, j + 1);
  }

  lemma {:induction false} PassesAll(os: Outcomes, j: nat, c: Context)
    requires j <= STEPS && PassesBefore(os, STEPS) && Unstopped(c, os, j)
    ensures RunFrom(c, j, os) == Context(Resolved, Some(3), false, os[2].remediation, None)
    ensures StepsRun(c, j, os) == seq(STEPS - j, i => j + i)
    decreases STEPS - j
  {
    if j < STEPS {
      assert !StopsAt(os, j);
      PassesAll(os, j + 1, AfterAgents(c, j, os[j]).(last := Some(j)));
    }
  }

  /** A run resumed on a stored context goes on after the last completed step, if one is left and
      approval is not awaited. */
  lemma ResumeMeans(c: Context, os: Outcomes)
    ensures c.state == AwaitingApproval ==> PipelineOf(c, os) == c
    ensures c.state != AwaitingApproval && c.last.Some? && c.last.value >= 3 ==>
              PipelineOf(c, os) == if c.state in {Resolved, Escalated, Failed} then c else c.(state := Resolved)
    ensures c.last == Some(2) && c.state in {Escalated, Failed} ==> PipelineOf(c, os) == c
    ensures c.state != AwaitingApproval && c.last.Some? && c.last.value < 3 ==>
              PipelineOf(c, os) == RunFrom(c, c.last.value + 1, os)
  {
  }

  /** What the agents of a step leave: its state, the flag once any has raised it, and the
      remediation only step two proposes. */
  lemma AgentsMean(c: Context, step: nat, o: StepOutcome)
    requires step < STEPS
    ensures var after := AfterAgents(c, step, o);
            && after.last == c.last && after.error == c.error
            && (after.state == Triaging <==> step == 0) && (after.state == Investigating <==> step == 1)
            && (after.state == Remediating <==> step >= 2)
            && (after.escalation <==> c.escalation || o.escalates)
            && (step != 2 || o.remediation.None? ==> after.remediation == c.remediation)
            && (step == 2 && o.remediation.Some? ==> after.remediation == o.remediation)
  {
  }
}
